/** VAT arithmetic of `zatca-vat.ts` in halalas. */
module Vat {
  import opened Basics

  // A rate is an integer number of hundredths of a percent, so the standard 15% is 1500.
  const KSA_RATE: nat := 1500
  const WHOLE: nat := 10000

  /** A price taken apart: `gross == net + vat`. */
  datatype Breakdown = Breakdown(net: int, vat: int, gross: int)

  /** n / d to the nearest integer, ties away from zero (ROUND_HALF_UP of the decimal library).
      The bounds leave exactly one integer. */
  function RoundDiv(n: int, d: int): (q: int)
    requires d > 0
    ensures n >= 0 ==> -d <= 2 * (n - d * q) < d
    ensures n < 0 ==> -d < 2 * (n - d * q) <= d
  {
    if n >= 0 then
      DivisionBounds(2 * n + d, 2 * d);
      (2 * n + d) / (2 * d)
    else
      DivisionBounds(2 * -n + d, 2 * d);
      -((2 * -n + d) / (2 * d))
  }

  lemma DivisionBounds(n: int, d: int)
    requires d > 0
    ensures 0 <= n - d * (n / d) < d
  {
  }

  /** Whatever lies strictly within half a unit is what RoundDiv returns. */
  lemma RoundDivIs(n: int, d: int, q: int)
    requires d > 0 && -d < 2 * (n - d * q) < d
    ensures RoundDiv(n, d) == q
  {
    var r := RoundDiv(n, d);
    assert d * q == d * r + d * (q - r);
    MultipleIsFar(d, q - r);
  }

  lemma MultipleIsFar(d: int, e: int)
    requires d > 0
    ensures e >= 1 ==> d * e >= d
    ensures e <= -1 ==> d * e <= -d
  {
    if e >= 1 {
      assert d * e == d + d * (e - 1) && d * (e - 1) >= 0;
    } else if e <= -1 {
      assert d * e == -d + d * (e + 1) && d * (e + 1) <= 0;
    }
  }

  function SplitInclusive(gross: int, rate: nat := KSA_RATE): Breakdown {
    var net := RoundDiv(gross * WHOLE, WHOLE + rate);
    Breakdown(net, gross - net, gross)
  }

  function AddExclusive(net: int, rate: nat := KSA_RATE): Breakdown {
    var vat := RoundDiv(net * rate, WHOLE);
    Breakdown(net, vat, net + vat)
  }

  function Net(gross: int): int {
    SplitInclusive(gross).net
  }

  function Tax(gross: int): int {
    SplitInclusive(gross).vat
  }

  // ---- the 15% split: 20/23 of the gross, never a tie ----

  lemma NetError(gross: int)
    ensures -11 <= 20 * gross - 23 * Net(gross) <= 11
  {
  }

  /** `Net` is the nearest integer to 20g/23 and no other integer is as near. */
  lemma NetIsTheUniqueNearest(gross: int, k: int)
    ensures k == Net(gross) <==>
            forall m: int :: Abs(23 * k - 20 * gross) <= Abs(23 * m - 20 * gross)
    ensures k != Net(gross) ==> Abs(23 * k - 20 * gross) > Abs(23 * Net(gross) - 20 * gross)
  {
    NetError(gross);
    var best := Net(gross);
    forall m: int | m != best
      ensures Abs(23 * m - 20 * gross) > Abs(23 * best - 20 * gross)
    {
      if m > best {
        assert 23 * m - 20 * gross >= 12;
      } else {
        assert 23 * m - 20 * gross <= -12;
      }
    }
  }

  /** Net and VAT both rise with the gross, and neither faster than the gross. */
  lemma SplitIsMonotone(g: int, h: int)
    requires g <= h
    ensures 0 <= Net(h) - Net(g) <= h - g
    ensures 0 <= Tax(h) - Tax(g) <= h - g
  {
    NetError(g);
    NetError(h);
  }

  lemma SplitOfPositive(g: int)
    requires g > 0
    ensures 0 < Net(g) <= g && 0 <= Tax(g)
  {
    NetError(g);
  }

  lemma SplitOfZero()
    ensures Net(0) == 0 && Tax(0) == 0
  {
    NetError(0);
  }

  // ---- payments split one by one against their total ----

  function Sum(parts: seq<int>): int {
    if parts == [] then 0 else Sum(parts[..|parts| - 1]) + parts[|parts| - 1]
  }

  function SumNet(parts: seq<int>): int {
    if parts == [] then 0 else SumNet(parts[..|parts| - 1]) + Net(parts[|parts| - 1])
  }

  function SumTax(parts: seq<int>): int {
    if parts == [] then 0 else SumTax(parts[..|parts| - 1]) + Tax(parts[|parts| - 1])
  }

  lemma {:induction false} PartsError(parts: seq<int>)
    ensures Abs(20 * Sum(parts) - 23 * SumNet(parts)) <= 11 * |parts|
    ensures Sum(parts) == SumNet(parts) + SumTax(parts)
  {
    if parts != [] {
      PartsError(parts[..|parts| - 1]);
      NetError(parts[|parts| - 1]);
    }
  }

  /** Splitting n parts one by one misses the split of their sum by at most 11(n+1)/23 halalas. */
  lemma PartsDrift(parts: seq<int>)
    ensures Abs(SumNet(parts) - Net(Sum(parts))) <= 11 * (|parts| + 1) / 23
    ensures SumTax(parts) - Tax(Sum(parts)) == Net(Sum(parts)) - SumNet(parts)
  {
    PartsError(parts);
    NetError(Sum(parts));
  }

  /** What the rounding of a payment leaves over, in 23rds of a halala: 20p mod 23, taken between -11
      and 11. */
  function Residue(payment: int): int {
    var r := (20 * payment) % 23;
    if r <= 11 then r else r - 23
  }

  lemma RemainderOf(x: int, n: int)
    requires -11 <= x - 23 * n <= 11
    ensures x % 23 == if x >= 23 * n then x - 23 * n else x - 23 * n + 23
  {
    assert x / 23 == if x >= 23 * n then n else n - 1;
  }

  lemma ResidueIsTheError(payment: int)
    ensures -11 <= Residue(payment) <= 11
    ensures 20 * payment - 23 * Net(payment) == Residue(payment)
  {
    hide Net;
    NetError(payment);
    RemainderOf(20 * payment, Net(payment));
  }

  function SumResidue(parts: seq<int>): int {
    if parts == [] then 0 else SumResidue(parts[..|parts| - 1]) + Residue(parts[|parts| - 1])
  }

  lemma {:induction false} ResiduesAddUp(parts: seq<int>)
    ensures 20 * Sum(parts) - 23 * SumNet(parts) == SumResidue(parts)
  {
    if parts != [] {
      ResiduesAddUp(parts[..|parts| - 1]);
      ResidueIsTheError(parts[|parts| - 1]);
    }
  }

  /** Splitting parts one by one gives the VAT of their sum exactly when their residues add up to no
      more than one rounding could have left. */
  lemma PartsReconcileExactlyWhen(parts: seq<int>)
    ensures SumTax(parts) == Tax(Sum(parts)) <==> -11 <= SumResidue(parts) <= 11
  {
    ResiduesAddUp(parts);
    PartsError(parts);
    NetError(Sum(parts));
  }

  /** A positive payment carries no VAT exactly when it is at most three halalas. */
  lemma TaxIsZeroExactlyWhen(payment: int)
    requires payment > 0
    ensures Tax(payment) == 0 <==> payment <= 3
  {
    NetError(payment);
  }

  // ---- the two directions against each other ----

  lemma RoundingFallsShort(net: int, vat: int, rate: nat)
    requires rate > 0 && Abs(2 * (net * rate - WHOLE * vat)) <= WHOLE
    ensures Abs(2 * ((net + vat) * WHOLE - (WHOLE + rate) * net)) < WHOLE + rate
  {
    assert (WHOLE + rate) * net == WHOLE * net + net * rate;
  }

  /** Adding VAT and splitting the result again restores net and vat, at every rate. */
  lemma AddThenSplit(net: int, rate: nat)
    ensures SplitInclusive(AddExclusive(net, rate).gross, rate) == AddExclusive(net, rate)
  {
    var vat := RoundDiv(net * rate, WHOLE);
    if rate == 0 {
      RoundDivIs(0, WHOLE, 0);
      RoundDivIs(net * WHOLE, WHOLE, net);
    } else {
      hide RoundDiv;
      RoundingFallsShort(net, vat, rate);
      RoundDivIs((net + vat) * WHOLE, WHOLE + rate, net);
    }
  }

  /** Splitting and adding again moves the gross by at most one halala below a 200% rate. */
  lemma SplitThenAdd(gross: int, rate: nat)
    requires rate < 2 * WHOLE
    ensures Abs(AddExclusive(SplitInclusive(gross, rate).net, rate).gross - gross) <= 1
  {
    hide RoundDiv;
    var net := SplitInclusive(gross, rate).net;
    var vat := RoundDiv(net * rate, WHOLE);
    assert (WHOLE + rate) * net == WHOLE * net + net * rate;
  }
}
