/** Numbers as text, and the document codes built from them. */
module Decimal {
  function Digit(d: nat): char
    requires d < 10
  {
    ('0' as int + d) as char
  }

  function Digits(n: nat): string {
    if n < 10 then [Digit(n)] else Digits(n / 10) + [Digit(n % 10)]
  }

  predicate AllDigits(s: string) {
    forall i :: 0 <= i < |s| ==> '0' <= s[i] <= '9'
  }

  /** Reads digits back, leading zeros or not. */
  function Value(s: string): nat
    requires AllDigits(s)
  {
    if s == "" then 0 else 10 * Value(s[..|s| - 1]) + (s[|s| - 1] as int - '0' as int)
  }

  lemma {:induction false} ValueOfDigits(n: nat)
    ensures AllDigits(Digits(n)) && Digits(n) != ""
    ensures Value(Digits(n)) == n
  {
    if n >= 10 {
      ValueOfDigits(n / 10);
      assert Digits(n)[..|Digits(n)| - 1] == Digits(n / 10);
    }
  }

  function Zeros(k: nat): string {
    seq(k, _ => '0')
  }

  function PadStart(s: string, width: nat): string {
    if |s| >= width then s else Zeros(width - |s|) + s
  }

  lemma {:induction false} LeadingZeros(k: nat, s: string)
    requires AllDigits(s)
    ensures AllDigits(Zeros(k) + s) && Value(Zeros(k) + s) == Value(s)
    decreases k + |s|
  {
    var all := Zeros(k) + s;
    if s != "" {
      LeadingZeros(k, s[..|s| - 1]);
      assert all[..|all| - 1] == Zeros(k) + s[..|s| - 1];
    } else if k > 0 {
      LeadingZeros(k - 1, "");
      assert all[..|all| - 1] == Zeros(k - 1) + "";
    }
  }

  function Padded(n: nat, width: nat): string {
    PadStart(Digits(n), width)
  }

  lemma {:induction false} ValueOfPadded(n: nat, width: nat)
    ensures AllDigits(Padded(n, width)) && Value(Padded(n, width)) == n
  {
    ValueOfDigits(n);
    if |Digits(n)| < width {
      LeadingZeros(width - |Digits(n)|, Digits(n));
    }
  }

  // ---- document codes ----

  function OrderNumber(number: nat): string {
    "ORD-" + Padded(number, 6)
  }

  /** Invoice numbering restarts every year. */
  function InvoiceNumber(year: nat, number: nat): string {
    "INV-" + Digits(year) + "-" + Padded(number, 6)
  }

  /** The code of an order's ticket at a zero-based position. */
  function TicketCode(orderNumber: string, index: nat): string {
    orderNumber + "-" + Padded(index + 1, 2)
  }

  /** Different numbers make different order numbers, past a million too. */
  lemma {:induction false} OrderNumbersDiffer(a: nat, b: nat)
    ensures OrderNumber(a) == OrderNumber(b) <==> a == b
  {
    ValueOfPadded(a, 6);
    ValueOfPadded(b, 6);
    assert OrderNumber(a)[4..] == Padded(a, 6) && OrderNumber(b)[4..] == Padded(b, 6);
  }

  lemma {:induction false} LastDashDecides(x: string, p: string, y: string, q: string)
    requires AllDigits(p) && AllDigits(q) && x + "-" + p == y + "-" + q
    ensures x == y && p == q
  {
    var s := x + "-" + p;
    assert s == y + "-" + q;
    assert s[|x|] == '-' && s[|y|] == '-';
    assert forall i :: |x| < i < |s| ==> s[i] == p[i - |x| - 1];
    assert forall i :: |y| < i < |s| ==> s[i] == q[i - |y| - 1];
    assert |x| == |y|;
    assert s[..|x|] == x && s[..|x|] == y;
    assert s[|x| + 1..] == p && s[|x| + 1..] == q;
  }

  /** A ticket code names its order and its position, past 99 garments too. */
  lemma {:induction false} TicketCodesDiffer(a: nat, i: nat, b: nat, j: nat)
    ensures TicketCode(OrderNumber(a), i) == TicketCode(OrderNumber(b), j) <==> a == b && i == j
  {
    ValueOfPadded(i + 1, 2);
    ValueOfPadded(j + 1, 2);
    OrderNumbersDiffer(a, b);
    if TicketCode(OrderNumber(a), i) == TicketCode(OrderNumber(b), j) {
      LastDashDecides(OrderNumber(a), Padded(i + 1, 2), OrderNumber(b), Padded(j + 1, 2));
    }
  }

  /** Restarting the numbers does not repeat an invoice number: the year is read off it. */
  lemma {:induction false} InvoiceNumbersDiffer(year: nat, a: nat, other: nat, b: nat)
    ensures InvoiceNumber(year, a) == InvoiceNumber(other, b) <==> year == other && a == b
  {
    ValueOfPadded(a, 6);
    ValueOfPadded(b, 6);
    ValueOfDigits(year);
    ValueOfDigits(other);
    if InvoiceNumber(year, a) == InvoiceNumber(other, b) {
      LastDashDecides("INV-" + Digits(year), Padded(a, 6), "INV-" + Digits(other), Padded(b, 6));
      assert ("INV-" + Digits(year))[4..] == Digits(year);
      assert ("INV-" + Digits(other))[4..] == Digits(other);
    }
  }

  // ---- what the codes say ----

  lemma {:induction false} FewDigits(n: nat, k: nat)
    requires k > 0 && n < TenTo(k)
    ensures |Digits(n)| <= k
  {
    if n >= 10 {
      FewDigits(n / 10, k - 1);
    }
  }

  function TenTo(k: nat): nat {
    if k == 0 then 1 else 10 * TenTo(k - 1)
  }

  lemma {:induction false} PaddedLength(n: nat, width: nat)
    requires width > 0
    ensures |Padded(n, width)| >= width
    ensures n < TenTo(width) ==> |Padded(n, width)| == width
  {
    if n < TenTo(width) {
      FewDigits(n, width);
    }
  }

  /** An order number is "ORD-" and the number, in six digits up to 999999 and in more beyond. */
  lemma {:induction false} OrderNumberSays(number: nat)
    ensures var text := OrderNumber(number);
            && |text| >= 10 && text[..4] == "ORD-" && AllDigits(text[4..]) && Value(text[4..]) == number
            && (number <= 999999 ==> |text| == 10)
  {
    ValueOfPadded(number, 6);
    SixDigits(number);
    assert OrderNumber(number)[4..] == Padded(number, 6);
  }

  /** An invoice number is "INV-", the year, a dash and the number. */
  lemma {:induction false} InvoiceNumberSays(year: nat, number: nat)
    ensures var text, d := InvoiceNumber(year, number), |Digits(year)|;
            && |text| >= 11 + d && text[..4] == "INV-" && text[4 + d] == '-'
            && AllDigits(text[4..4 + d]) && Value(text[4..4 + d]) == year
            && AllDigits(text[5 + d..]) && Value(text[5 + d..]) == number
            && (number <= 999999 ==> |text| == 11 + d)
  {
    hide Padded, Digits, TenTo;
    ValueOfDigits(year);
    ValueOfPadded(number, 6);
    SixDigits(number);
    var text, d := InvoiceNumber(year, number), |Digits(year)|;
    assert ("INV-" + Digits(year))[4..] == Digits(year);
    DashAt("INV-" + Digits(year), Padded(number, 6), text);
    assert text[4..4 + d] == ("INV-" + Digits(year))[4..];
    assert text[..4] == ("INV-" + Digits(year))[..4];
  }

  lemma {:induction false} SixDigits(number: nat)
    ensures |Padded(number, 6)| >= 6 && (number <= 999999 ==> |Padded(number, 6)| == 6)
  {
    PaddedLength(number, 6);
    assert TenTo(6) == 10 * (10 * (10 * (10 * (10 * (10 * TenTo(0)))))) == 1000000;
  }

  lemma {:induction false} DashAt(x: string, p: string, text: string)
    requires text == x + "-" + p
    ensures |text| == |x| + 1 + |p| && text[..|x|] == x && text[|x|] == '-' && text[|x| + 1..] == p
  {
  }

  /** A ticket code is the order number, a dash and the position counted from one. */
  lemma {:induction false} TicketCodeSays(orderNumber: string, index: nat)
    ensures var text, d := TicketCode(orderNumber, index), |orderNumber|;
            && |text| >= d + 3 && text[..d] == orderNumber && text[d] == '-'
            && AllDigits(text[d + 1..]) && Value(text[d + 1..]) == index + 1
            && (index < 99 ==> |text| == d + 3)
  {
    ValueOfPadded(index + 1, 2);
    PaddedLength(index + 1, 2);
    assert TenTo(2) == 10 * (10 * TenTo(0)) == 100;
    var text, d := TicketCode(orderNumber, index), |orderNumber|;
    assert text == orderNumber + ("-" + Padded(index + 1, 2));
    assert text[d + 1..] == Padded(index + 1, 2);
  }
}
