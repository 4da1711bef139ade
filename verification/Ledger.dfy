/** The double-entry ledger behind custom orders. */
module Ledger {
  import opened Basics
  import opened Vat

  // `ledger.service.ts` and the two point-of-sale operations that post to it, the deposit of `checkout`
  // and `settle` (`pos.service.ts`).

  datatype Account = CashOnHand | CardClearing | Bank | UnearnedRevenue | VatPayable | SalesRevenue

  datatype Means = Cash | Card | BankTransfer | Other

  datatype Line = Line(code: Account, debit: int, credit: int)

  datatype Entry = Entry(number: int, order: nat, lines: seq<Line>, totalDebit: int, totalCredit: int)

  datatype PaymentKind = DepositPayment | SettlementPayment

  datatype Payment = Payment(kind: PaymentKind, amount: int, via: Means)

  datatype Order = Order(total: int, paid: int, payments: seq<Payment>)

  datatype Refusal =
    | MissingAccount   // the tenant's chart lacks a code
    | Unbalanced
    | ZeroValue
    | CheckViolated    // a CHECK constraint of the journal tables aborts the transaction
    | NotFound
    | AlreadyExists
    | NotPositive
    | ExceedsBalance

  /** Everything the ledger operations of one tenant read or write. */
  datatype Books = Books(chart: set<Account>, journal: seq<Entry>, orders: map<nat, Order>)

  datatype Outcome = Committed(books: Books) | Refused(why: Refusal)

  const FULL_CHART: set<Account> :=
    {CashOnHand, CardClearing, Bank, UnearnedRevenue, VatPayable, SalesRevenue}

  function CashAccountFor(via: Means): Account {
    match via
    case Card => CardClearing
    case BankTransfer => Bank
    case _ => CashOnHand
  }

  // ---- one journal entry ----

  function Debits(lines: seq<Line>): int {
    if lines == [] then 0 else Debits(lines[..|lines| - 1]) + lines[|lines| - 1].debit
  }

  function Credits(lines: seq<Line>): int {
    if lines == [] then 0 else Credits(lines[..|lines| - 1]) + lines[|lines| - 1].credit
  }

  predicate IsZero(line: Line) {
    line.debit == 0 && line.credit == 0
  }

  function NonZero(lines: seq<Line>): seq<Line> {
    if lines == [] then []
    else
      var last := lines[|lines| - 1];
      NonZero(lines[..|lines| - 1]) + if IsZero(last) then [] else [last]
  }

  /** chk_line_one_sided */
  predicate OneSided(line: Line) {
    (line.debit > 0 && line.credit == 0) || (line.credit > 0 && line.debit == 0)
  }

  function LastNumber(journal: seq<Entry>): int {
    if journal == [] then 0
    else
      var rest := LastNumber(journal[..|journal| - 1]);
      var n := journal[|journal| - 1].number;
      if n > rest then n else rest
  }

  predicate KnownCodes(lines: seq<Line>, chart: set<Account>) {
    forall i :: 0 <= i < |lines| ==> lines[i].code in chart
  }

  predicate PassesChecks(lines: seq<Line>) {
    Debits(lines) > 0 && forall i :: 0 <= i < |lines| ==> IsZero(lines[i]) || OneSided(lines[i])
  }

  /** What `post` does to the books with these lines. */
  function PostLines(b: Books, order: nat, lines: seq<Line>): Outcome {
    if !KnownCodes(lines, b.chart) then Refused(MissingAccount)
    else if Debits(lines) != Credits(lines) then Refused(Unbalanced)
    else if Debits(lines) == 0 then Refused(ZeroValue)
    else if !PassesChecks(lines) then Refused(CheckViolated)
    else
      var entry := Entry(LastNumber(b.journal) + 1, order, NonZero(lines), Debits(lines), Credits(lines));
      Committed(b.(journal := b.journal + [entry]))
  }

  function DepositLines(amount: int, via: Means): seq<Line> {
    [Line(CashAccountFor(via), amount, 0),
     Line(UnearnedRevenue, 0, Net(amount)),
     Line(VatPayable, 0, Tax(amount))]
  }

  /** VAT posted by a settling entry: the remainder against the order once a deposit is applied. */
  function SettlementVat(amount: int, applied: int, orderGross: int): int {
    if applied != 0 then Tax(orderGross) - Tax(applied) else Tax(amount)
  }

  /** Revenue before the drift branch: the order's net on the closing payment of a deposit order. */
  function RevenueNet(amount: int, applied: int, orderGross: int): int {
    if applied != 0 then Net(orderGross) else Net(amount)
  }

  /** What the drift branch of `postSettlement` adds to revenue: debits less credits. */
  function Drift(amount: int, applied: int, orderGross: int): int {
    amount + Net(applied) - (RevenueNet(amount, applied, orderGross) + SettlementVat(amount, applied, orderGross))
  }

  function EntryLines(cash: Account, amount: int, released: int, revenue: int, vat: int): seq<Line> {
    [Line(cash, amount, 0)]
    + (if released != 0 then [Line(UnearnedRevenue, released, 0)] else [])
    + [Line(SalesRevenue, 0, revenue)]
    + (if vat != 0 then [Line(VatPayable, 0, vat)] else [])
  }

  /** The lines `postSettlement` ends up posting. */
  function SettlementLines(amount: int, applied: int, orderGross: int, via: Means): seq<Line> {
    EntryLines(CashAccountFor(via), amount, Net(applied),
               RevenueNet(amount, applied, orderGross) + Drift(amount, applied, orderGross),
               SettlementVat(amount, applied, orderGross))
  }

  // ---- the operations ----

  function Deposits(payments: seq<Payment>): int {
    if payments == [] then 0
    else
      var last := payments[|payments| - 1];
      Deposits(payments[..|payments| - 1]) + if last.kind.DepositPayment? then last.amount else 0
  }

  function Settlements(payments: seq<Payment>): seq<int> {
    if payments == [] then []
    else
      var last := payments[|payments| - 1];
      Settlements(payments[..|payments| - 1]) + if last.kind.SettlementPayment? then [last.amount] else []
  }

  /** What was paid by these means. */
  function PaidBy(payments: seq<Payment>, means: set<Means>): int {
    if payments == [] then 0
    else
      var last := payments[|payments| - 1];
      PaidBy(payments[..|payments| - 1], means) + if last.via in means then last.amount else 0
  }

  function Checkout(b: Books, id: nat, total: int, deposit: int, via: Means): Outcome {
    if id in b.orders then Refused(AlreadyExists)
    else if deposit > 0 then
      var order := Order(total, deposit, [Payment(DepositPayment, deposit, via)]);
      PostLines(b.(orders := b.orders[id := order]), id, DepositLines(deposit, via))
    else
      Committed(b.(orders := b.orders[id := Order(total, 0, [])]))
  }

  function Settle(b: Books, id: nat, amount: int, via: Means): Outcome {
    if amount <= 0 then Refused(NotPositive)
    else if id !in b.orders then Refused(NotFound)
    else if amount > b.orders[id].total - b.orders[id].paid then Refused(ExceedsBalance)
    else
      var order := b.orders[id];
      PostLines(b.(orders := b.orders[id := SettledOrder(order, amount, via)]), id,
                SettlementLines(amount, Applied(order, amount), order.total, via))
  }

  function SettledOrder(order: Order, amount: int, via: Means): Order {
    Order(order.total, order.paid + amount, order.payments + [Payment(SettlementPayment, amount, via)])
  }

  function Applied(order: Order, amount: int): int {
    if order.total - order.paid - amount == 0 then Deposits(order.payments) else 0
  }

  // ---- balances ----

  /** Credits minus debits these lines put on an account. */
  function Effect(lines: seq<Line>, account: Account): int {
    if lines == [] then 0
    else
      var last := lines[|lines| - 1];
      Effect(lines[..|lines| - 1], account) + if last.code == account then last.credit - last.debit else 0
  }

  /** Credits minus debits on an account over all entries of one order. */
  function Owed(journal: seq<Entry>, order: nat, account: Account): int {
    if journal == [] then 0
    else
      var last := journal[|journal| - 1];
      Owed(journal[..|journal| - 1], order, account)
      + if last.order == order then Effect(last.lines, account) else 0
  }

  function CashReceived(journal: seq<Entry>, order: nat): int {
    -(Owed(journal, order, CashOnHand) + Owed(journal, order, CardClearing) + Owed(journal, order, Bank))
  }

  predicate SoundEntry(e: Entry, chart: set<Account>) {
    && e.totalDebit == e.totalCredit == Debits(e.lines) == Credits(e.lines)
    && e.totalDebit > 0
    && KnownCodes(e.lines, chart)
    && forall i :: 0 <= i < |e.lines| ==> OneSided(e.lines[i])
  }

  predicate Closed(order: Order) {
    Settlements(order.payments) != [] && order.paid == order.total
  }

  /** What an order's payments say the four balances are, to the halala. */
  predicate Tally(total: int, deposit: int, settled: seq<int>, paid: int,
                  cash: int, unearned: int, vat: int, revenue: int)
  {
    && deposit >= 0
    && (forall i :: 0 <= i < |settled| ==> settled[i] > 0)
    && paid == deposit + Sum(settled)
    && (settled != [] ==> paid <= total)
    && cash == paid
    && (if deposit == 0 || settled == [] || paid != total then
          unearned == Net(deposit) && vat == Tax(deposit) + SumTax(settled) && revenue == SumNet(settled)
        else
          var partials := settled[..|settled| - 1];
          unearned == 0 && vat == Tax(total) + SumTax(partials) && revenue == Net(total) - SumTax(partials))
  }

  /** Each payment stands on the account of its means: cards on card clearing, transfers on the bank,
      everything else on cash on hand. */
  predicate CashByMeans(journal: seq<Entry>, id: nat, payments: seq<Payment>) {
    && -Owed(journal, id, CardClearing) == PaidBy(payments, {Card})
    && -Owed(journal, id, Bank) == PaidBy(payments, {BankTransfer})
    && -Owed(journal, id, CashOnHand) == PaidBy(payments, {Cash, Other})
  }

  /** The books of one order at every point of its life. */
  predicate Figures(journal: seq<Entry>, id: nat, order: Order) {
    && CashByMeans(journal, id, order.payments)
    && Tally(order.total, Deposits(order.payments), Settlements(order.payments), order.paid,
          CashReceived(journal, id), Owed(journal, id, UnearnedRevenue),
          Owed(journal, id, VatPayable), Owed(journal, id, SalesRevenue))
  }

  ghost predicate Valid(b: Books) {
    && (forall i :: 0 <= i < |b.journal| ==>
          SoundEntry(b.journal[i], b.chart) && b.journal[i].number == i + 1 && b.journal[i].order in b.orders)
    && (forall id :: id in b.orders ==> Figures(b.journal, id, b.orders[id]))
  }

  // ---- lemmas on line sequences ----

  lemma {:induction false} NonZeroKeepsTotals(lines: seq<Line>)
    ensures Debits(NonZero(lines)) == Debits(lines) && Credits(NonZero(lines)) == Credits(lines)
    ensures forall a :: Effect(NonZero(lines), a) == Effect(lines, a)
    ensures forall i :: 0 <= i < |NonZero(lines)| ==> NonZero(lines)[i] in lines && !IsZero(NonZero(lines)[i])
  {
    if lines != [] {
      var front, last := lines[..|lines| - 1], lines[|lines| - 1];
      NonZeroKeepsTotals(front);
      if !IsZero(last) {
        assert (NonZero(front) + [last])[..|NonZero(front)|] == NonZero(front);
      } else {
        assert NonZero(front) + [] == NonZero(front);
      }
    }
  }

  lemma AppendLine(lines: seq<Line>, line: Line)
    ensures Debits(lines + [line]) == Debits(lines) + line.debit
    ensures Credits(lines + [line]) == Credits(lines) + line.credit
    ensures forall a :: Effect(lines + [line], a)
                        == Effect(lines, a) + if line.code == a then line.credit - line.debit else 0
  {
    assert (lines + [line])[..|lines|] == lines;
  }

  lemma NoLines()
    ensures Debits([]) == Credits([]) == 0 && forall a :: Effect([], a) == 0
  {
  }

  lemma DepositTotals(amount: int, via: Means)
    ensures var lines := DepositLines(amount, via);
            && Debits(lines) == Credits(lines) == amount
            && Effect(lines, CardClearing) == (if via == Card then -amount else 0)
            && Effect(lines, Bank) == (if via == BankTransfer then -amount else 0)
            && Effect(lines, CashOnHand) == (if via != Card && via != BankTransfer then -amount else 0)
            && Effect(lines, UnearnedRevenue) == Net(amount) && Effect(lines, VatPayable) == Tax(amount)
            && Effect(lines, SalesRevenue) == 0
  {
    NoLines();
    hide Effect, Debits, Credits;
    var c, u, v := Line(CashAccountFor(via), amount, 0), Line(UnearnedRevenue, 0, Net(amount)),
                   Line(VatPayable, 0, Tax(amount));
    AppendLine([], c);
    AppendLine([c], u);
    AppendLine([c] + [u], v);
    assert [] + [c] == [c];
    assert [c] + [u] + [v] == DepositLines(amount, via);
  }

  lemma SettlementTotals(amount: int, applied: int, orderGross: int, via: Means)
    ensures var lines := SettlementLines(amount, applied, orderGross, via);
            var vat := SettlementVat(amount, applied, orderGross);
            && Debits(lines) == Credits(lines) == amount + Net(applied)
            && Effect(lines, CardClearing) == (if via == Card then -amount else 0)
            && Effect(lines, Bank) == (if via == BankTransfer then -amount else 0)
            && Effect(lines, CashOnHand) == (if via != Card && via != BankTransfer then -amount else 0)
            && Effect(lines, UnearnedRevenue) == -Net(applied) && Effect(lines, VatPayable) == vat
            && Effect(lines, SalesRevenue) == amount + Net(applied) - vat
  {
    NoLines();
    hide Effect, Debits, Credits;
    var vat := SettlementVat(amount, applied, orderGross);
    var cash := Line(CashAccountFor(via), amount, 0);
    var release := Line(UnearnedRevenue, Net(applied), 0);
    var revenue := Line(SalesRevenue, 0, amount + Net(applied) - vat);
    AppendLine([], cash);
    assert [] + [cash] == [cash];
    AppendLine([cash], release);
    var l2 := if Net(applied) != 0 then [cash] + [release] else [cash];
    AppendLine(l2, revenue);
    AppendLine(l2 + [revenue], Line(VatPayable, 0, vat));
    var l3 := l2 + [revenue];
    assert SettlementLines(amount, applied, orderGross, via)
        == if vat != 0 then l3 + [Line(VatPayable, 0, vat)] else l3;
  }

  // ---- posting keeps the books ----

  lemma OwedAfter(journal: seq<Entry>, e: Entry, id: nat, a: Account)
    ensures Owed(journal + [e], id, a) == Owed(journal, id, a) + if e.order == id then Effect(e.lines, a) else 0
  {
    assert (journal + [e])[..|journal|] == journal;
  }

  lemma {:induction false} NumbersRunUp(journal: seq<Entry>)
    requires forall i :: 0 <= i < |journal| ==> journal[i].number == i + 1
    ensures LastNumber(journal) == |journal|
  {
    if journal != [] {
      NumbersRunUp(journal[..|journal| - 1]);
    }
  }

  /** Any committed entry is sound, takes the next number and moves only its own order's balances. */
  lemma PostedEntry(b: Books, id: nat, lines: seq<Line>)
    requires PostLines(b, id, lines).Committed?
    requires forall i :: 0 <= i < |b.journal| ==> b.journal[i].number == i + 1
    ensures var after := PostLines(b, id, lines).books;
            && after.journal == b.journal + [after.journal[|b.journal|]]
            && SoundEntry(after.journal[|b.journal|], b.chart)
            && after.journal[|b.journal|].number == |b.journal| + 1
            && after.journal[|b.journal|].order == id
            && after.chart == b.chart && after.orders == b.orders
            && (forall o, a :: Owed(after.journal, o, a)
                               == Owed(b.journal, o, a) + if o == id then Effect(lines, a) else 0)
  {
    NonZeroKeepsTotals(lines);
    NumbersRunUp(b.journal);
    var after := PostLines(b, id, lines).books;
    var e := after.journal[|b.journal|];
    forall o, a
      ensures Owed(after.journal, o, a) == Owed(b.journal, o, a) + if o == id then Effect(lines, a) else 0
    {
      OwedAfter(b.journal, e, o, a);
    }
  }

  lemma {:induction false} FreshOrderOwesNothing(journal: seq<Entry>, id: nat)
    requires forall i :: 0 <= i < |journal| ==> journal[i].order != id
    ensures forall a :: Owed(journal, id, a) == 0
  {
    if journal != [] {
      FreshOrderOwesNothing(journal[..|journal| - 1], id);
    }
  }

  /** Figures read an order's balances and nothing else. */
  lemma FiguresFrame(before: seq<Entry>, after: seq<Entry>, id: nat, order: Order)
    requires Figures(before, id, order)
    requires forall a :: Owed(after, id, a) == Owed(before, id, a)
    ensures Figures(after, id, order)
  {
  }

  /** A committed posting for one order keeps the books of all the others. */
  lemma PostingKeepsOthers(b: Books, id: nat, order: Order, lines: seq<Line>)
    requires Valid(b) && PostLines(b.(orders := b.orders[id := order]), id, lines).Committed?
    ensures var after := PostLines(b.(orders := b.orders[id := order]), id, lines).books;
            Figures(after.journal, id, order) ==> Valid(after)
  {
    var placed := b.(orders := b.orders[id := order]);
    var after := PostLines(placed, id, lines).books;
    PostedEntry(placed, id, lines);
    forall o | o in after.orders && o != id
      ensures Figures(after.journal, o, after.orders[o])
    {
      FiguresFrame(b.journal, after.journal, o, b.orders[o]);
    }
  }

  lemma FiguresOfDeposit(journal: seq<Entry>, id: nat, total: int, deposit: int, via: Means)
    requires deposit > 0
    requires forall a :: Owed(journal, id, a) == Effect(DepositLines(deposit, via), a)
    ensures Figures(journal, id, Order(total, deposit, [Payment(DepositPayment, deposit, via)]))
  {
    assert [Payment(DepositPayment, deposit, via)][..0] == [];
    DepositTotals(deposit, via);
  }

  lemma FiguresOfNoDeposit(journal: seq<Entry>, id: nat, total: int)
    requires forall a :: Owed(journal, id, a) == 0
    ensures Figures(journal, id, Order(total, 0, []))
  {
    SplitOfZero();
  }

  lemma CheckoutKeepsBooks(b: Books, id: nat, total: int, deposit: int, via: Means)
    requires Valid(b) && Checkout(b, id, total, deposit, via).Committed?
    ensures Valid(Checkout(b, id, total, deposit, via).books)
  {
    hide PostLines, Tally, DepositLines;
    var after := Checkout(b, id, total, deposit, via).books;
    FreshOrderOwesNothing(b.journal, id);
    if deposit > 0 {
      var order := Order(total, deposit, [Payment(DepositPayment, deposit, via)]);
      PostedEntry(b.(orders := b.orders[id := order]), id, DepositLines(deposit, via));
      FiguresOfDeposit(after.journal, id, total, deposit, via);
      PostingKeepsOthers(b, id, order, DepositLines(deposit, via));
    } else {
      FiguresOfNoDeposit(b.journal, id, total);
    }
  }

  lemma SettlePayments(payments: seq<Payment>, amount: int, via: Means)
    ensures var paid := payments + [Payment(SettlementPayment, amount, via)];
            var settled := Settlements(payments);
            && Deposits(paid) == Deposits(payments)
            && Settlements(paid) == settled + [amount]
            && forall means :: PaidBy(paid, means) == PaidBy(payments, means) + if via in means then amount else 0
  {
    var payment := Payment(SettlementPayment, amount, via);
    assert (payments + [payment])[..|payments|] == payments;
  }

  lemma AppendPart(parts: seq<int>, amount: int)
    ensures (parts + [amount])[..|parts|] == parts
    ensures Sum(parts + [amount]) == Sum(parts) + amount
    ensures SumNet(parts + [amount]) == SumNet(parts) + Net(amount)
    ensures SumTax(parts + [amount]) == SumTax(parts) + Tax(amount)
  {
    assert (parts + [amount])[..|parts|] == parts;
  }

  lemma TallyOfSettlement(total: int, deposit: int, settled: seq<int>, paid: int,
                          cash: int, unearned: int, vat: int, revenue: int, amount: int)
    requires Tally(total, deposit, settled, paid, cash, unearned, vat, revenue)
    requires 0 < amount <= total - paid
    ensures var applied := if total - paid == amount then deposit else 0;
            var v := SettlementVat(amount, applied, total);
            Tally(total, deposit, settled + [amount], paid + amount, cash + amount,
                  unearned - Net(applied), vat + v, revenue + amount + Net(applied) - v)
  {
    AppendPart(settled, amount);
    PartsError(settled);
    SplitOfZero();
  }

  lemma FiguresOfSettlement(before: seq<Entry>, after: seq<Entry>, id: nat, order: Order, amount: int, via: Means)
    requires Figures(before, id, order) && 0 < amount <= order.total - order.paid
    requires forall a :: Owed(after, id, a) == Owed(before, id, a)
               + Effect(SettlementLines(amount, Applied(order, amount), order.total, via), a)
    ensures Figures(after, id, SettledOrder(order, amount, via))
  {
    hide Tally, SettlementLines, SettlementVat, Effect;
    SettlePayments(order.payments, amount, via);
    TallyOfSettlement(order.total, Deposits(order.payments), Settlements(order.payments), order.paid,
                      CashReceived(before, id), Owed(before, id, UnearnedRevenue),
                      Owed(before, id, VatPayable), Owed(before, id, SalesRevenue), amount);
    SettlementTotals(amount, Applied(order, amount), order.total, via);
  }

  lemma SettleKeepsBooks(b: Books, id: nat, amount: int, via: Means)
    requires Valid(b) && Settle(b, id, amount, via).Committed?
    ensures Valid(Settle(b, id, amount, via).books)
  {
    var after := Settle(b, id, amount, via).books;
    var order := b.orders[id];
    var lines := SettlementLines(amount, Applied(order, amount), order.total, via);
    PostedEntry(b.(orders := b.orders[id := after.orders[id]]), id, lines);
    FiguresOfSettlement(b.journal, after.journal, id, order, amount, via);
    PostingKeepsOthers(b, id, after.orders[id], lines);
  }

  // ---- whole runs ----

  datatype Op =
    | DoCheckout(id: nat, total: int, deposit: int, via: Means)
    | DoSettle(id: nat, amount: int, via: Means)

  function Apply(b: Books, op: Op): Books {
    var result := match op
      case DoCheckout(id, total, deposit, via) => Checkout(b, id, total, deposit, via)
      case DoSettle(id, amount, via) => Settle(b, id, amount, via);
    if result.Committed? then result.books else b
  }

  function Run(b: Books, ops: seq<Op>): Books {
    if ops == [] then b else Apply(Run(b, ops[..|ops| - 1]), ops[|ops| - 1])
  }

  /** In every run of checkouts and settlements, in any order and over any number of orders, every
      entry balances and every order's figures hold. */
  lemma {:induction false} EveryRunKeepsTheBooks(chart: set<Account>, ops: seq<Op>)
    ensures Valid(Run(Books(chart, [], map[]), ops))
  {
    if ops != [] {
      var start := Books(chart, [], map[]);
      var b := Run(start, ops[..|ops| - 1]);
      EveryRunKeepsTheBooks(chart, ops[..|ops| - 1]);
      match ops[|ops| - 1] {
        case DoCheckout(id, total, deposit, via) =>
          if Checkout(b, id, total, deposit, via).Committed? {
            CheckoutKeepsBooks(b, id, total, deposit, via);
          }
        case DoSettle(id, amount, via) =>
          if Settle(b, id, amount, via).Committed? {
            SettleKeepsBooks(b, id, amount, via);
          }
      }
    }
  }

  predicate Accepted(b: Books, op: Op) {
    match op
    case DoCheckout(id, total, deposit, via) => Checkout(b, id, total, deposit, via).Committed?
    case DoSettle(id, amount, via) => Settle(b, id, amount, via).Committed?
  }

  /** The total an order was accepted with. */
  function Agreed(chart: set<Account>, ops: seq<Op>, id: nat): int {
    if ops == [] then 0
    else
      var front, last := ops[..|ops| - 1], ops[|ops| - 1];
      Agreed(chart, front, id)
      + if last.id == id && last.DoCheckout? && Accepted(Run(Books(chart, [], map[]), front), last)
        then last.total else 0
  }

  /** What a request hands over by these means. */
  function Given(op: Op, means: set<Means>): int {
    if op.via !in means then 0
    else if op.DoSettle? then op.amount
    else if op.deposit > 0 then op.deposit
    else 0
  }

  /** What customers handed over for an order by these means, in the requests that were accepted. */
  function Taken(chart: set<Account>, ops: seq<Op>, id: nat, means: set<Means>): int {
    if ops == [] then 0
    else
      var front, last := ops[..|ops| - 1], ops[|ops| - 1];
      Taken(chart, front, id, means)
      + if last.id == id && Accepted(Run(Books(chart, [], map[]), front), last) then Given(last, means) else 0
  }

  /** Whatever was handed over stands, to the halala, on the account of the means it was handed over by. */
  lemma EveryRunBooksCashByMeans(chart: set<Account>, ops: seq<Op>, id: nat)
    requires id in Run(Books(chart, [], map[]), ops).orders
    ensures var b := Run(Books(chart, [], map[]), ops);
            && b.orders[id].total == Agreed(chart, ops, id)
            && -Owed(b.journal, id, CardClearing) == Taken(chart, ops, id, {Card})
            && -Owed(b.journal, id, Bank) == Taken(chart, ops, id, {BankTransfer})
            && -Owed(b.journal, id, CashOnHand) == Taken(chart, ops, id, {Cash, Other})
  {
    EveryRunKeepsTheBooks(chart, ops);
    PaymentsAreRecorded(chart, ops, id, {Card});
    PaymentsAreRecorded(chart, ops, id, {BankTransfer});
    PaymentsAreRecorded(chart, ops, id, {Cash, Other});
    var b := Run(Books(chart, [], map[]), ops);
    assert Figures(b.journal, id, b.orders[id]);
  }

  lemma {:induction false} PaymentsAreRecorded(chart: set<Account>, ops: seq<Op>, id: nat, means: set<Means>)
    ensures var b := Run(Books(chart, [], map[]), ops);
            && TotalOf(b, id) == Agreed(chart, ops, id)
            && PaidFor(b, id, means) == Taken(chart, ops, id, means)
  {
    if ops != [] {
      hide Apply, Accepted, TotalOf, PaidFor;
      var front := ops[..|ops| - 1];
      PaymentsAreRecorded(chart, front, id, means);
      StepIsRecorded(Run(Books(chart, [], map[]), front), ops[|ops| - 1], id, means);
    }
  }

  function TotalOf(b: Books, id: nat): int {
    if id in b.orders then b.orders[id].total else 0
  }

  function PaidFor(b: Books, id: nat, means: set<Means>): int {
    if id in b.orders then PaidBy(b.orders[id].payments, means) else 0
  }

  lemma {:induction false} StepIsRecorded(b: Books, op: Op, id: nat, means: set<Means>)
    ensures var after := Apply(b, op);
            && TotalOf(after, id)
               == TotalOf(b, id) + (if op.id == id && op.DoCheckout? && Accepted(b, op) then op.total else 0)
            && PaidFor(after, id, means)
               == PaidFor(b, id, means) + (if op.id == id && Accepted(b, op) then Given(op, means) else 0)
  {
    hide DepositLines, SettlementLines, KnownCodes, PassesChecks, NonZero, Debits, Credits, LastNumber;
    match op
    case DoCheckout(i, total, deposit, via) =>
      var p := Payment(DepositPayment, deposit, via);
      assert [p][..0] == [] && [p][|[p]| - 1] == p;
      assert PaidBy([p], means) == PaidBy([], means) + if via in means then deposit else 0;
    case DoSettle(i, amount, via) =>
      if i in b.orders {
        SettlePayments(b.orders[i].payments, amount, via);
      }
  }

  /** A closed order that took a deposit and no partial settlement reconciles with its invoice. */
  lemma ClosedWithoutPartialsReconciles(b: Books, id: nat)
    requires Valid(b) && id in b.orders && Closed(b.orders[id])
    requires Deposits(b.orders[id].payments) > 0 && |Settlements(b.orders[id].payments)| == 1
    ensures Owed(b.journal, id, UnearnedRevenue) == 0
    ensures Owed(b.journal, id, VatPayable) == Tax(b.orders[id].total)
    ensures Owed(b.journal, id, SalesRevenue) == Net(b.orders[id].total)
    ensures CashReceived(b.journal, id) == b.orders[id].total
  {
    var settled := Settlements(b.orders[id].payments);
    assert settled[..0] == [];
    assert Figures(b.journal, id, b.orders[id]);
  }

  /** With a deposit, a closed order's VAT Payable exceeds the invoice's VAT by the partial
      settlements' VAT, so they agree exactly when no partial was large enough to carry any. */
  lemma ClosedVatReconcilesExactlyWhen(b: Books, id: nat)
    requires Valid(b) && id in b.orders && Closed(b.orders[id])
    requires Deposits(b.orders[id].payments) > 0
    ensures var settled := Settlements(b.orders[id].payments);
            var partials := settled[..|settled| - 1];
            && Owed(b.journal, id, VatPayable) - Tax(b.orders[id].total) == SumTax(partials)
            && Net(b.orders[id].total) - Owed(b.journal, id, SalesRevenue) == SumTax(partials)
            && (Owed(b.journal, id, VatPayable) == Tax(b.orders[id].total)
                <==> forall i :: 0 <= i < |partials| ==> partials[i] <= 3)
  {
    var settled := Settlements(b.orders[id].payments);
    assert Figures(b.journal, id, b.orders[id]);
    TaxSumsToZeroExactlyWhen(settled[..|settled| - 1]);
  }

  lemma {:induction false} TaxSumsToZeroExactlyWhen(parts: seq<int>)
    requires forall i :: 0 <= i < |parts| ==> parts[i] > 0
    ensures SumTax(parts) >= 0
    ensures SumTax(parts) == 0 <==> forall i :: 0 <= i < |parts| ==> parts[i] <= 3
  {
    if parts != [] {
      var front := parts[..|parts| - 1];
      TaxSumsToZeroExactlyWhen(front);
      SplitOfPositive(parts[|parts| - 1]);
      TaxIsZeroExactlyWhen(parts[|parts| - 1]);
      assert forall i :: 0 <= i < |front| ==> parts[i] == front[i];
    }
  }

  /** Without a deposit VAT Payable equals the invoice's VAT exactly when the residues of the payments
      add up to no more than 11 either way. */
  lemma ClosedWithoutDepositReconcilesExactlyWhen(b: Books, id: nat)
    requires Valid(b) && id in b.orders && Closed(b.orders[id])
    requires Deposits(b.orders[id].payments) == 0
    ensures var settled := Settlements(b.orders[id].payments);
            && (Owed(b.journal, id, VatPayable) == Tax(b.orders[id].total) <==> -11 <= SumResidue(settled) <= 11)
            && (Owed(b.journal, id, SalesRevenue) == Net(b.orders[id].total) <==> -11 <= SumResidue(settled) <= 11)
  {
    assert Figures(b.journal, id, b.orders[id]);
    SplitOfZero();
    PartsError(Settlements(b.orders[id].payments));
    PartsReconcileExactlyWhen(Settlements(b.orders[id].payments));
  }

  /** Without a deposit every payment is split on its own, so a closed order misses the invoice's
      VAT by at most 11(k+1)/23 halalas over k payments. */
  lemma ClosedWithoutDepositDrifts(b: Books, id: nat)
    requires Valid(b) && id in b.orders && Closed(b.orders[id])
    requires Deposits(b.orders[id].payments) == 0
    ensures Abs(Owed(b.journal, id, VatPayable) - Tax(b.orders[id].total))
         <= 11 * (|Settlements(b.orders[id].payments)| + 1) / 23
  {
    hide Owed, CashReceived, Net, Sum, SumNet, SumTax, Deposits, Settlements;
    assert Figures(b.journal, id, b.orders[id]);
    SplitOfZero();
    PartsDrift(Settlements(b.orders[id].payments));
  }

  // ---- when a settlement goes through ----

  lemma SettlementChecks(amount: int, applied: int, orderGross: int, via: Means)
    requires amount > 0 && 0 <= applied <= orderGross
    ensures PassesChecks(SettlementLines(amount, applied, orderGross, via))
        <==> SettlementVat(amount, applied, orderGross) <= amount + Net(applied)
  {
    SettlementTotals(amount, applied, orderGross, via);
    SplitOfZero();
    SplitIsMonotone(0, applied);
    SplitIsMonotone(applied, orderGross);
    SplitOfPositive(amount);
    var lines := SettlementLines(amount, applied, orderGross, via);
    var vat := SettlementVat(amount, applied, orderGross);
    var revenue := Line(SalesRevenue, 0, amount + Net(applied) - vat);
    assert vat >= 0;
    assert revenue in lines by {
      assert lines[if Net(applied) != 0 then 2 else 1] == revenue;
    }
    assert IsZero(revenue) || OneSided(revenue) <==> vat <= amount + Net(applied);
  }

  lemma {:induction false} SumOfPositives(parts: seq<int>)
    requires forall i :: 0 <= i < |parts| ==> parts[i] > 0
    ensures Sum(parts) >= |parts|
  {
    if parts != [] {
      SumOfPositives(parts[..|parts| - 1]);
    }
  }

  /** The closing entry of a deposit is well signed exactly when revenue is not negative. */
  lemma ClosingChecks(order: Order, via: Means)
    requires order.paid == Deposits(order.payments) + Sum(Settlements(order.payments)) < order.total
    requires Deposits(order.payments) > 0 && Sum(Settlements(order.payments)) >= 0
    ensures PassesChecks(SettlementLines(order.total - order.paid, Deposits(order.payments), order.total, via))
        <==> Sum(Settlements(order.payments)) <= Net(order.total)
  {
    SettlementChecks(order.total - order.paid, Deposits(order.payments), order.total, via);
  }

  lemma PlainChecks(amount: int, orderGross: int, via: Means)
    requires amount > 0
    ensures PassesChecks(SettlementLines(amount, 0, orderGross, via))
  {
    SplitOfZero();
    SplitOfPositive(amount);
    SettlementTotals(amount, 0, orderGross, via);
  }

  /** With the full chart only the CHECK constraints can refuse a settling entry. */
  lemma OnlyChecksRefuse(b: Books, id: nat, amount: int, applied: int, orderGross: int, via: Means)
    requires b.chart == FULL_CHART && amount > 0 && applied >= 0
    ensures var lines := SettlementLines(amount, applied, orderGross, via);
            && (PassesChecks(lines) ==> PostLines(b, id, lines).Committed?)
            && (!PassesChecks(lines) ==> PostLines(b, id, lines) == Refused(CheckViolated))
  {
    SettlementTotals(amount, applied, orderGross, via);
    SplitOfZero();
    SplitIsMonotone(0, applied);
    var lines := SettlementLines(amount, applied, orderGross, via);
    forall i | 0 <= i < |lines|
      ensures lines[i].code in FULL_CHART
    {
      EveryAccountIsCharted(lines[i].code);
    }
  }

  lemma EveryAccountIsCharted(account: Account)
    ensures account in FULL_CHART
  {
  }

  /** The partial settlements of a deposit order exceed what the order is worth net of VAT. */
  predicate PartialsExceedNet(order: Order) {
    Deposits(order.payments) > 0 && Sum(Settlements(order.payments)) > Net(order.total)
  }

  lemma OrderFacts(b: Books, id: nat)
    requires Valid(b) && id in b.orders
    ensures var order := b.orders[id];
            && order.paid == Deposits(order.payments) + Sum(Settlements(order.payments))
            && Deposits(order.payments) >= 0 && Sum(Settlements(order.payments)) >= 0
  {
    assert Figures(b.journal, id, b.orders[id]);
    SumOfPositives(Settlements(b.orders[id].payments));
  }

  lemma SettlementLinesPass(order: Order, amount: int, via: Means)
    requires order.paid == Deposits(order.payments) + Sum(Settlements(order.payments))
    requires Deposits(order.payments) >= 0 && Sum(Settlements(order.payments)) >= 0
    requires 0 < amount <= order.total - order.paid
    ensures PassesChecks(SettlementLines(amount, Applied(order, amount), order.total, via))
        <==> !(amount == order.total - order.paid && PartialsExceedNet(order))
  {
    if Applied(order, amount) == 0 {
      PlainChecks(amount, order.total, via);
    } else {
      ClosingChecks(order, via);
    }
  }

  /** A payment within the balance is accepted, except the one that closes an order with a deposit
      whose partial settlements already exceed the order's net: its revenue line would be negative
      and the line CHECK aborts the transaction. */
  lemma SettleAcceptedExactlyWhen(b: Books, id: nat, amount: int, via: Means)
    requires Valid(b) && b.chart == FULL_CHART
    requires id in b.orders && 0 < amount <= b.orders[id].total - b.orders[id].paid
    ensures var order := b.orders[id];
            if amount == order.total - order.paid && PartialsExceedNet(order)
            then Settle(b, id, amount, via) == Refused(CheckViolated)
            else Settle(b, id, amount, via).Committed?
  {
    var order := b.orders[id];
    OrderFacts(b, id);
    SettlementLinesPass(order, amount, via);
    var placed := b.(orders := b.orders[id := SettledOrder(order, amount, via)]);
    OnlyChecksRefuse(placed, id, amount, Applied(order, amount), order.total, via);
  }

  /** The drift branch runs exactly on the closing payment of a deposit order that had partial
      settlements, and takes exactly their sum out of revenue. */
  lemma DriftIsThePartials(b: Books, id: nat, amount: int)
    requires Valid(b) && id in b.orders && 0 < amount <= b.orders[id].total - b.orders[id].paid
    ensures var order := b.orders[id];
            var partials := Settlements(order.payments);
            var drift := Drift(amount, Applied(order, amount), order.total);
            && drift == (if Applied(order, amount) != 0 then -Sum(partials) else 0)
            && (drift == 0 <==> Applied(order, amount) == 0 || partials == [])
  {
    var order := b.orders[id];
    assert Figures(b.journal, id, order);
    SumOfPositives(Settlements(order.payments));
    SplitOfZero();
  }

  // ---- two runs ----

  function Opened(ops: seq<Op>): Books {
    Run(Books(FULL_CHART, [], map[]), ops)
  }

  lemma {:induction false} ChartStays(ops: seq<Op>)
    ensures Opened(ops).chart == FULL_CHART
  {
    if ops != [] {
      ChartStays(ops[..|ops| - 1]);
    }
  }

  lemma RunThen(ops: seq<Op>, op: Op)
    ensures Opened(ops + [op]) == Apply(Opened(ops), op)
  {
    assert (ops + [op])[..|ops|] == ops;
  }

  lemma SettledInRun(ops: seq<Op>, id: nat, amount: int, via: Means)
    requires var b := Opened(ops);
             id in b.orders && 0 < amount <= b.orders[id].total - b.orders[id].paid
             && (amount == b.orders[id].total - b.orders[id].paid ==> !PartialsExceedNet(b.orders[id]))
    ensures var after := Opened(ops + [DoSettle(id, amount, via)]);
            id in after.orders && after.orders[id] == SettledOrder(Opened(ops).orders[id], amount, via)
  {
    hide Valid, PartialsExceedNet, Run;
    EveryRunKeepsTheBooks(FULL_CHART, ops);
    ChartStays(ops);
    SettleAcceptedExactlyWhen(Opened(ops), id, amount, via);
    RunThen(ops, DoSettle(id, amount, via));
  }

  lemma DepositAccepted(b: Books, id: nat, total: int, deposit: int, via: Means)
    requires b.chart == FULL_CHART && id !in b.orders && deposit > 0
    ensures Checkout(b, id, total, deposit, via).Committed?
  {
    DepositTotals(deposit, via);
    SplitOfPositive(deposit);
    var lines := DepositLines(deposit, via);
    forall i | 0 <= i < |lines|
      ensures lines[i].code in FULL_CHART
    {
      EveryAccountIsCharted(lines[i].code);
    }
  }

  lemma CheckedOutInRun(id: nat, total: int, deposit: int, via: Means)
    requires deposit >= 0
    ensures var b := Opened([DoCheckout(id, total, deposit, via)]);
            id in b.orders
            && b.orders[id]
               == Order(total, deposit, if deposit > 0 then [Payment(DepositPayment, deposit, via)] else [])
  {
    var op := DoCheckout(id, total, deposit, via);
    RunThen([], op);
    assert [] + [op] == [op];
    if deposit > 0 {
      DepositAccepted(Opened([]), id, total, deposit, via);
    }
  }

  lemma RunIsValid(ops: seq<Op>)
    ensures Valid(Opened(ops))
  {
    EveryRunKeepsTheBooks(FULL_CHART, ops);
  }

  lemma HalfPaid(half: int, via: Means)
    ensures var p := Payment(SettlementPayment, half, via);
            && Settlements([p]) == [half] && Deposits([p]) == 0
            && Settlements([p, p]) == [half, half] && Deposits([p, p]) == 0
            && SumTax([half, half]) == 2 * Tax(half)
  {
    var p := Payment(SettlementPayment, half, via);
    SettlePayments([], half, via);
    SettlePayments([p], half, via);
    AppendPart([], half);
    AppendPart([half], half);
    assert [] + [p] == [p] && [p] + [p] == [p, p];
    assert [] + [half] == [half] && [half] + [half] == [half, half];
  }

  lemma OnePartial(deposit: int, partial: int, via: Means)
    ensures var payments := [Payment(DepositPayment, deposit, via), Payment(SettlementPayment, partial, via)];
            Settlements(payments) == [partial] && Deposits(payments) == deposit && Sum([partial]) == partial
  {
    var d, p := Payment(DepositPayment, deposit, via), Payment(SettlementPayment, partial, via);
    assert [d][..0] == [] && Deposits([]) == 0 && Settlements([]) == [];
    assert [d][|[d]| - 1] == d;
    assert Settlements([d]) == [] && Deposits([d]) == deposit;
    SettlePayments([d], partial, via);
    AppendPart([], partial);
    assert [d] + [p] == [d, p] && [] + [partial] == [partial];
  }

  /** 400.00 paid as twice 200.00 without a deposit: the ledger holds 52.18 of VAT and the invoice
      says 52.17. */
  lemma TwoHalvesDoNotReconcile(via: Means)
    ensures var b := Opened([DoCheckout(7, 40000, 0, via), DoSettle(7, 20000, via), DoSettle(7, 20000, via)]);
            7 in b.orders && Closed(b.orders[7])
            && Owed(b.journal, 7, VatPayable) == 5218 && Tax(b.orders[7].total) == 5217
  {
    hide Opened, Valid, Owed, CashReceived, Net, Tax, SumNet, SumTax;
    var first, second := DoCheckout(7, 40000, 0, via), DoSettle(7, 20000, via);
    CheckedOutInRun(7, 40000, 0, via);
    SettledInRun([first], 7, 20000, via);
    assert [first] + [second] == [first, second];
    HalfPaid(20000, via);
    SettledInRun([first, second], 7, 20000, via);
    assert [first, second] + [second] == [first, second, second];
    var b := Opened([first, second, second]);
    FiguresInRun([first, second, second], 7);
    VatOfHalves();
  }

  lemma FiguresInRun(ops: seq<Op>, id: nat)
    requires id in Opened(ops).orders
    ensures Figures(Opened(ops).journal, id, Opened(ops).orders[id])
  {
    RunIsValid(ops);
  }

  lemma VatOfHalves()
    ensures Tax(0) == 0 && Tax(20000) == 2609 && Tax(40000) == 5217
  {
    SplitOfZero();
    NetError(20000);
    NetError(40000);
  }

  /** An order that can never be closed: total 100.00, deposit 1.00, one partial of 98.00. */
  lemma AnOrderThatCannotClose(via: Means)
    ensures var b := Opened([DoCheckout(7, 10000, 100, via), DoSettle(7, 9800, via)]);
            7 in b.orders && b.orders[7].total - b.orders[7].paid == 100
            && Settle(b, 7, 100, via) == Refused(CheckViolated)
  {
    hide Opened, Valid;
    var first, second := DoCheckout(7, 10000, 100, via), DoSettle(7, 9800, via);
    CheckedOutInRun(7, 10000, 100, via);
    SettledInRun([first], 7, 9800, via);
    assert [first] + [second] == [first, second];
    var b := Opened([first, second]);
    RunIsValid([first, second]);
    ChartStays([first, second]);
    OnePartial(100, 9800, via);
    assert b.orders[7].payments == [Payment(DepositPayment, 100, via), Payment(SettlementPayment, 9800, via)];
    NetError(10000);
    SettleAcceptedExactlyWhen(b, 7, 100, via);
  }
}
