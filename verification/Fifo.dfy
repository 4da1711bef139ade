/** The greedy drain of `fifo.service.ts` on a bare sequence. */
module Fifo {
  import opened Basics

  /** Balances are listed oldest first. */
  function Total(xs: seq<nat>): nat {
    if xs == [] then 0 else Total(xs[..|xs| - 1]) + xs[|xs| - 1]
  }

  /** What is taken from each balance to cover `need`. */
  function Takes(balances: seq<nat>, need: nat): (takes: seq<nat>)
    ensures |takes| == |balances|
  {
    if balances == [] then []
    else
      var take := Min(need, balances[0]);
      [take] + Takes(balances[1..], need - take)
  }

  function Left(balances: seq<nat>, need: nat): (left: seq<nat>)
    ensures |left| == |balances|
  {
    TakesFit(balances, need);
    seq(|balances|, i requires 0 <= i < |balances| => balances[i] - Takes(balances, need)[i])
  }

  lemma {:induction false} TakesFit(balances: seq<nat>, need: nat)
    ensures forall i :: 0 <= i < |balances| ==> Takes(balances, need)[i] <= balances[i]
  {
    if balances != [] {
      TakesFit(balances[1..], need - Min(need, balances[0]));
    }
  }

  lemma LeftAt(balances: seq<nat>, need: nat, i: nat)
    requires i < |balances|
    ensures Left(balances, need)[i] + Takes(balances, need)[i] == balances[i]
  {
    TakesFit(balances, need);
  }

  lemma {:induction false} TotalFromFront(xs: seq<nat>)
    requires xs != []
    ensures Total(xs) == xs[0] + Total(xs[1..])
  {
    if |xs| > 1 {
      TotalFromFront(xs[..|xs| - 1]);
      assert xs[..|xs| - 1][1..] == xs[1..][..|xs| - 2];
    }
  }

  lemma {:induction false} TotalGrows(xs: seq<nat>, i: nat, j: nat)
    requires i <= j <= |xs|
    ensures Total(xs[..i]) <= Total(xs[..j])
    ensures i < j ==> Total(xs[..i]) + xs[i] <= Total(xs[..j])
  {
    if i < j {
      TotalGrows(xs, i, j - 1);
      assert xs[..j][..j - 1] == xs[..j - 1];
    }
  }

  /** The closed form of the drain: after k balances it has taken all it can, up to the need. */
  lemma {:induction false} TakesPrefix(balances: seq<nat>, need: nat, k: nat)
    requires k <= |balances|
    ensures Total(Takes(balances, need)[..k]) == Min(need, Total(balances[..k]))
  {
    if k > 0 {
      var take := Min(need, balances[0]);
      var takes := Takes(balances, need);
      TakesPrefix(balances[1..], need - take, k - 1);
      assert takes[..k][1..] == Takes(balances[1..], need - take)[..k - 1];
      assert balances[..k][1..] == balances[1..][..k - 1];
      TotalFromFront(takes[..k]);
      TotalFromFront(balances[..k]);
    }
  }

  lemma TakesAt(balances: seq<nat>, need: nat, i: nat)
    requires i < |balances|
    ensures Takes(balances, need)[i]
         == Min(need, Total(balances[..i]) + balances[i]) - Min(need, Total(balances[..i]))
  {
    var takes := Takes(balances, need);
    TakesPrefix(balances, need, i);
    TakesPrefix(balances, need, i + 1);
    assert takes[..i + 1][..i] == takes[..i] && balances[..i + 1][..i] == balances[..i];
  }

  lemma TakesSum(balances: seq<nat>, need: nat)
    requires need <= Total(balances)
    ensures Total(Takes(balances, need)) == need
  {
    TakesPrefix(balances, need, |balances|);
    assert Takes(balances, need)[..|balances|] == Takes(balances, need) && balances[..|balances|] == balances;
  }

  /** Takes add up to the need, a touched balance is emptied unless it is the last one touched, and
      nothing after the last one is touched. */
  lemma DrainIsGreedy(balances: seq<nat>, need: nat, i: nat, j: nat)
    requires need <= Total(balances) && i < j < |balances|
    ensures Total(Takes(balances, need)) == need
    ensures Takes(balances, need)[j] > 0 ==> Takes(balances, need)[i] == balances[i]
    ensures Takes(balances, need)[i] < balances[i] ==> Takes(balances, need)[j] == 0
  {
    TakesSum(balances, need);
    TakesAt(balances, need, i);
    TakesAt(balances, need, j);
    TotalGrows(balances, i, j);
  }

  /** No other way to cover the same need uses up the older balances any further. */
  lemma OldestFirstDominates(balances: seq<nat>, need: nat, other: seq<nat>, k: nat)
    requires |other| == |balances| && k <= |balances| && Total(other) == need
    requires forall i :: 0 <= i < |balances| ==> other[i] <= balances[i]
    ensures Total(other[..k]) <= Total(Takes(balances, need)[..k])
  {
    TakesPrefix(balances, need, k);
    TotalGrows(other, k, |other|);
    assert other[..|other|] == other;
    PointwiseTotal(other[..k], balances[..k]);
  }

  lemma {:induction false} PointwiseTotal(xs: seq<nat>, ys: seq<nat>)
    requires |xs| == |ys|
    requires forall i :: 0 <= i < |xs| ==> xs[i] <= ys[i]
    ensures Total(xs) <= Total(ys)
  {
    if xs != [] {
      PointwiseTotal(xs[..|xs| - 1], ys[..|ys| - 1]);
    }
  }

  lemma LeftFront(balances: seq<nat>, need: nat)
    requires balances != []
    ensures var take := Min(need, balances[0]);
            Left(balances, need) == [balances[0] - take] + Left(balances[1..], need - take)
  {
    var take := Min(need, balances[0]);
    var whole, tail := Left(balances, need), Left(balances[1..], need - take);
    TakesFit(balances, need);
    TakesFit(balances[1..], need - take);
    forall i | 0 <= i < |balances|
      ensures whole[i] == ([balances[0] - take] + tail)[i]
    {
      assert whole[i] == balances[i] - Takes(balances, need)[i];
      if i > 0 {
        assert tail[i - 1] == balances[1..][i - 1] - Takes(balances[1..], need - take)[i - 1];
      }
    }
  }

  /** Draining a and then b leaves what draining a + b leaves. */
  lemma {:induction false} DrainTwice(balances: seq<nat>, a: nat, b: nat)
    ensures Left(Left(balances, a), b) == Left(balances, a + b)
    ensures Total(Left(balances, a)) == Total(balances) - Min(a, Total(balances))
  {
    if balances != [] {
      var take := Min(a, balances[0]);
      var rest := balances[0] - take;
      LeftFront(balances, a);
      var first := Left(balances, a);
      LeftFront(first, b);
      assert first[1..] == Left(balances[1..], a - take);
      LeftFront(balances, a + b);
      DrainTwice(balances[1..], a - take, b - Min(b, rest));
      TotalFromFront(first);
      TotalFromFront(balances);
    }
  }
}
