/** The services that write the ledger, in place. */
module GeneralLedgerService {
  import opened Basics
  import opened Vat
  import opened Ledger

  /** One row of the trial balance. */
  datatype AccountRow = AccountRow(code: Account, debit: int, credit: int, balance: int)

  function TotalDebit(lines: seq<Line>, account: Account): int {
    if lines == [] then 0
    else
      var last := lines[|lines| - 1];
      TotalDebit(lines[..|lines| - 1], account) + if last.code == account then last.debit else 0
  }

  function TotalCredit(lines: seq<Line>, account: Account): int {
    if lines == [] then 0
    else
      var last := lines[|lines| - 1];
      TotalCredit(lines[..|lines| - 1], account) + if last.code == account then last.credit else 0
  }

  /** All ledger lines of the tenant. */
  function AllLines(journal: seq<Entry>): seq<Line> {
    if journal == [] then [] else AllLines(journal[..|journal| - 1]) + journal[|journal| - 1].lines
  }

  function SumOverDebits(rows: seq<Account>, lines: seq<Line>): int {
    if rows == [] then 0
    else SumOverDebits(rows[..|rows| - 1], lines) + TotalDebit(lines, rows[|rows| - 1])
  }

  function SumOverCredits(rows: seq<Account>, lines: seq<Line>): int {
    if rows == [] then 0
    else SumOverCredits(rows[..|rows| - 1], lines) + TotalCredit(lines, rows[|rows| - 1])
  }

  function Reason(outcome: Outcome): Option<Refusal> {
    if outcome.Committed? then None else Some(outcome.why)
  }

  /** A refused transaction rolls back to the books it began with. */
  function After(outcome: Outcome, before: Books): Books {
    if outcome.Committed? then outcome.books else before
  }

  lemma CheckoutStaysValid(b: Books, id: nat, total: int, deposit: int, via: Means)
    requires Valid(b)
    ensures Valid(After(Ledger.Checkout(b, id, total, deposit, via), b))
  {
    if Ledger.Checkout(b, id, total, deposit, via).Committed? {
      CheckoutKeepsBooks(b, id, total, deposit, via);
    }
  }

  lemma SettleStaysValid(b: Books, id: nat, amount: int, via: Means)
    requires Valid(b)
    ensures Valid(After(Ledger.Settle(b, id, amount, via), b))
  {
    if Ledger.Settle(b, id, amount, via).Committed? {
      SettleKeepsBooks(b, id, amount, via);
    }
  }

  /** Builds the lines one by one; when rounding or partial payments leave the entry adrift, the
      revenue line is found and overwritten. */
  method ComposeSettlement(amount: int, depositApplied: int, orderTotal: Option<int>, via: Means)
    returns (lines: seq<Line>)
    ensures lines == SettlementLines(amount, depositApplied,
                       if orderTotal.Some? then orderTotal.value else depositApplied + amount, via)
  {
    SplitOfZero();
    hide RoundDiv, EntryLines;
    var balance := SplitInclusive(amount);
    var deposit := SplitInclusive(depositApplied);
    var orderGross := if orderTotal.Some? then orderTotal.value else deposit.gross + balance.gross;
    var orderSplit := SplitInclusive(orderGross);
    var closesOrder := deposit.gross != 0;
    var vatThisEntry := if closesOrder then orderSplit.vat - deposit.vat else balance.vat;
    var revenueNet := if closesOrder then orderSplit.net - deposit.net + deposit.net else balance.net;
    lines := LinesOf(CashAccountFor(via), balance.gross, deposit.net, revenueNet, vatThisEntry);
    var debits := balance.gross + deposit.net;
    var credits := revenueNet + vatThisEntry;
    assert debits - credits == Drift(amount, depositApplied, orderGross);
    if debits != credits {
      var drift := debits - credits;
      lines := OverwriteRevenue(lines, CashAccountFor(via), balance.gross, deposit.net, revenueNet,
                                vatThisEntry, drift);
    }
  }

  method LinesOf(cash: Account, amount: int, released: int, revenue: int, vat: int) returns (lines: seq<Line>)
    ensures lines == EntryLines(cash, amount, released, revenue, vat)
  {
    lines := [Line(cash, amount, 0)];
    if released != 0 {
      lines := lines + [Line(UnearnedRevenue, released, 0)];
    }
    lines := lines + [Line(SalesRevenue, 0, revenue)];
    if vat != 0 {
      lines := lines + [Line(VatPayable, 0, vat)];
    }
  }

  method OverwriteRevenue(lines: seq<Line>, ghost cash: Account, ghost amount: int, ghost released: int,
                          revenue: int, ghost vat: int, drift: int)
    returns (adjusted: seq<Line>)
    requires lines == EntryLines(cash, amount, released, revenue, vat) && cash != SalesRevenue
    ensures adjusted == EntryLines(cash, amount, released, revenue + drift, vat)
  {
    ghost var at := if released != 0 then 2 else 1;
    assert lines[at] == Line(SalesRevenue, 0, revenue);
    var found := 0;
    while lines[found].code != SalesRevenue
      invariant 0 <= found <= at
      decreases at - found
    {
      found := found + 1;
    }
    assert found == at;
    adjusted := lines[found := Line(SalesRevenue, 0, revenue + drift)];
  }

  /** One tenant's tables. Each method is proved against the function of module Ledger of the same name. */
  class GeneralLedger {
    var chart: set<Account>
    var journal: seq<Entry>
    var orders: map<nat, Order>

    ghost function View(): Books
      reads this
    {
      Books(chart, journal, orders)
    }

    constructor (accounts: set<Account>)
      ensures View() == Books(accounts, [], map[]) && Valid(View())
    {
      chart := accounts;
      journal := [];
      orders := map[];
    }

    /** Totals the lines, refuses what does not balance, then inserts the entry. */
    method Post(order: nat, lines: seq<Line>) returns (refusal: Option<Refusal>)
      modifies this`journal
      ensures refusal == Reason(PostLines(old(View()), order, lines))
      ensures View() == After(PostLines(old(View()), order, lines), old(View()))
    {
      var totalDebit, totalCredit := 0, 0;
      var resolved: seq<Line> := [];
      var i := 0;
      while i < |lines|
        invariant 0 <= i <= |lines|
        invariant KnownCodes(lines[..i], chart)
        invariant totalDebit == Debits(lines[..i]) && totalCredit == Credits(lines[..i])
        invariant resolved == NonZero(lines[..i])
      {
        if lines[i].code !in chart {
          return Some(MissingAccount);
        }
        assert lines[..i + 1][..i] == lines[..i];
        totalDebit := totalDebit + lines[i].debit;
        totalCredit := totalCredit + lines[i].credit;
        if !IsZero(lines[i]) {
          resolved := resolved + [lines[i]];
        }
        i := i + 1;
      }
      assert lines[..i] == lines;
      if totalDebit != totalCredit {
        return Some(Unbalanced);
      }
      if totalDebit == 0 {
        return Some(ZeroValue);
      }
      if !PassesChecks(lines) {
        return Some(CheckViolated);
      }
      journal := journal + [Entry(LastNumber(journal) + 1, order, resolved, totalDebit, totalCredit)];
      return None;
    }

    method PostDeposit(order: nat, amount: int, via: Means) returns (refusal: Option<Refusal>)
      modifies this`journal
      ensures refusal == Reason(PostLines(old(View()), order, DepositLines(amount, via)))
      ensures View() == After(PostLines(old(View()), order, DepositLines(amount, via)), old(View()))
    {
      var split := SplitInclusive(amount);
      refusal := Post(order, [Line(CashAccountFor(via), split.gross, 0),
                              Line(UnearnedRevenue, 0, split.net),
                              Line(VatPayable, 0, split.vat)]);
    }

    /** The settling entry for this payment. */
    method PostSettlement(order: nat, amount: int, depositApplied: int, orderTotal: Option<int>, via: Means)
      returns (refusal: Option<Refusal>)
      modifies this`journal
      ensures var gross := if orderTotal.Some? then orderTotal.value else depositApplied + amount;
              var posted := PostLines(old(View()), order, SettlementLines(amount, depositApplied, gross, via));
              refusal == Reason(posted) && View() == After(posted, old(View()))
    {
      var lines := ComposeSettlement(amount, depositApplied, orderTotal, via);
      refusal := Post(order, lines);
    }

    /** The money part of the counter transaction: the order row, and its deposit if any. */
    method Checkout(id: nat, total: int, deposit: int, via: Means) returns (refusal: Option<Refusal>)
      requires Valid(View())
      modifies this
      ensures Valid(View())
      ensures refusal == Reason(Ledger.Checkout(old(View()), id, total, deposit, via))
      ensures View() == After(Ledger.Checkout(old(View()), id, total, deposit, via), old(View()))
    {
      CheckoutStaysValid(View(), id, total, deposit, via);
      if id in orders {
        return Some(AlreadyExists);
      }
      var before := orders;
      orders := orders[id := Order(total, 0, [])];
      refusal := None;
      if deposit > 0 {
        orders := orders[id := Order(total, deposit, [Payment(DepositPayment, deposit, via)])];
        assert orders == before[id := Order(total, deposit, [Payment(DepositPayment, deposit, via)])];
        refusal := PostDeposit(id, deposit, via);
        if refusal.Some? {
          orders := before;
        }
      }
    }

    /** A payment at the counter; the one that clears the balance releases the deposit. */
    method Settle(id: nat, amount: int, via: Means) returns (refusal: Option<Refusal>)
      requires Valid(View())
      modifies this
      ensures Valid(View())
      ensures refusal == Reason(Ledger.Settle(old(View()), id, amount, via))
      ensures View() == After(Ledger.Settle(old(View()), id, amount, via), old(View()))
    {
      SettleStaysValid(View(), id, amount, via);
      if amount <= 0 {
        return Some(NotPositive);
      }
      if id !in orders {
        return Some(NotFound);
      }
      var before, order := orders, orders[id];
      var balance := order.total - order.paid;
      if amount > balance {
        return Some(ExceedsBalance);
      }
      var deposits := 0;
      for i := 0 to |order.payments|
        invariant deposits == Deposits(order.payments[..i])
      {
        assert order.payments[..i + 1][..i] == order.payments[..i];
        if order.payments[i].kind.DepositPayment? {
          deposits := deposits + order.payments[i].amount;
        }
      }
      assert order.payments[..|order.payments|] == order.payments;
      var closesOrder := balance - amount == 0;
      orders := orders[id := SettledOrder(order, amount, via)];
      refusal := PostSettlement(id, amount, if closesOrder then deposits else 0, Some(order.total), via);
      if refusal.Some? {
        orders := before;
      }
    }

    /** Totals per account, given the chart's accounts as the query lists them. Whatever was
        posted, the two grand totals agree. */
    method TrialBalance(accounts: seq<Account>)
      returns (rows: seq<AccountRow>, totalDebit: int, totalCredit: int, balanced: bool)
      requires Valid(View())
      requires forall a :: a in accounts <==> a in chart
      requires forall i, j :: 0 <= i < j < |accounts| ==> accounts[i] != accounts[j]
      ensures balanced && totalDebit == totalCredit == Debits(AllLines(journal))
      ensures |rows| == |accounts|
      ensures forall i :: 0 <= i < |rows| ==>
                var lines := AllLines(journal);
                var d, c := TotalDebit(lines, accounts[i]), TotalCredit(lines, accounts[i]);
                rows[i] == AccountRow(accounts[i], d, c,
                  if accounts[i] in {CashOnHand, CardClearing, Bank} then d - c else c - d)
    {
      hide Figures, SoundEntry, AllLines, TotalDebit, TotalCredit;
      var lines := AllLines(journal);
      rows, totalDebit, totalCredit := [], 0, 0;
      for i := 0 to |accounts|
        invariant |rows| == i
        invariant totalDebit == SumOverDebits(accounts[..i], lines)
        invariant totalCredit == SumOverCredits(accounts[..i], lines)
        invariant forall k :: 0 <= k < i ==>
                    var d, c := TotalDebit(lines, accounts[k]), TotalCredit(lines, accounts[k]);
                    rows[k] == AccountRow(accounts[k], d, c,
                      if accounts[k] in {CashOnHand, CardClearing, Bank} then d - c else c - d)
      {
        assert accounts[..i + 1][..i] == accounts[..i];
        var debit, credit := TotalDebit(lines, accounts[i]), TotalCredit(lines, accounts[i]);
        totalDebit, totalCredit := totalDebit + debit, totalCredit + credit;
        var balance := match accounts[i]
          case CashOnHand | CardClearing | Bank => debit - credit
          case _ => credit - debit;
        rows := rows + [AccountRow(accounts[i], debit, credit, balance)];
      }
      assert accounts[..|accounts|] == accounts;
      JournalBalances(journal, chart);
      AccountsCoverAllLines(accounts, lines);
      balanced := totalDebit == totalCredit;
    }
  }

  lemma {:induction false} AppendLines(a: seq<Line>, b: seq<Line>)
    ensures Debits(a + b) == Debits(a) + Debits(b) && Credits(a + b) == Credits(a) + Credits(b)
  {
    if b == [] {
      assert a + b == a;
    } else {
      AppendLines(a, b[..|b| - 1]);
      assert (a + b)[..|a + b| - 1] == a + b[..|b| - 1];
    }
  }

  /** A journal of sound entries balances as a whole and uses no account outside the chart. */
  lemma {:induction false} JournalBalances(journal: seq<Entry>, chart: set<Account>)
    requires forall i :: 0 <= i < |journal| ==> SoundEntry(journal[i], chart)
    ensures Debits(AllLines(journal)) == Credits(AllLines(journal))
    ensures KnownCodes(AllLines(journal), chart)
  {
    if journal != [] {
      JournalBalances(journal[..|journal| - 1], chart);
      AppendLines(AllLines(journal[..|journal| - 1]), journal[|journal| - 1].lines);
    }
  }

  lemma {:induction false} NoLinesNoTotals(rows: seq<Account>)
    ensures SumOverDebits(rows, []) == 0 && SumOverCredits(rows, []) == 0
  {
    if rows != [] {
      NoLinesNoTotals(rows[..|rows| - 1]);
    }
  }

  lemma {:induction false} OneMoreLine(rows: seq<Account>, lines: seq<Line>, line: Line)
    requires forall i, j :: 0 <= i < j < |rows| ==> rows[i] != rows[j]
    ensures SumOverDebits(rows, lines + [line])
         == SumOverDebits(rows, lines) + if line.code in rows then line.debit else 0
    ensures SumOverCredits(rows, lines + [line])
         == SumOverCredits(rows, lines) + if line.code in rows then line.credit else 0
  {
    if rows != [] {
      var front, last := rows[..|rows| - 1], rows[|rows| - 1];
      OneMoreLine(front, lines, line);
      assert (lines + [line])[..|lines|] == lines;
      assert line.code in rows <==> line.code in front || line.code == last;
      assert last !in front;
    }
  }

  /** Summing by account or by line gives the same grand totals when the accounts cover the lines. */
  lemma {:induction false} AccountsCoverAllLines(rows: seq<Account>, lines: seq<Line>)
    requires forall i, j :: 0 <= i < j < |rows| ==> rows[i] != rows[j]
    requires forall i :: 0 <= i < |lines| ==> lines[i].code in rows
    ensures SumOverDebits(rows, lines) == Debits(lines)
    ensures SumOverCredits(rows, lines) == Credits(lines)
  {
    if lines == [] {
      NoLinesNoTotals(rows);
    } else {
      var front, last := lines[..|lines| - 1], lines[|lines| - 1];
      AccountsCoverAllLines(rows, front);
      OneMoreLine(rows, front, last);
      assert front + [last] == lines;
    }
  }
}
