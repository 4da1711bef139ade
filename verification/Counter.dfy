/** Document numbering (`counter.service.ts`). */
module Counter {
  import opened Basics
  import Decimal

  // A row taken by `next` stays locked until its transaction commits or aborts; that is what makes the
  // numbers distinct.

  datatype Kind = OrderKind | InvoiceKind | TicketKind

  datatype Key = Key(organization: nat, store: nat, kind: Kind, scope: string)

  type Rows = map<Key, int>

  function RowOf(rows: Rows, k: Key): Option<int> {
    if k in rows then Some(rows[k]) else None
  }

  /** The upsert of `next`. */
  function Bumped(row: Option<int>): int {
    if row.Some? then row.value + 1 else 1
  }

  /** The upsert of `seedFrom`. */
  function Raised(row: Option<int>, currentMax: int): int {
    if row.Some? && row.value > currentMax then row.value else currentMax
  }

  class CounterService {
    var rows: Rows

    constructor ()
      ensures rows == map[]
    {
      rows := map[];
    }

    method Next(k: Key) returns (number: int)
      modifies this
      ensures number == Bumped(RowOf(old(rows), k))
      ensures rows == old(rows)[k := number]
      ensures k in old(rows) ==> number > old(rows)[k]
    {
      if k in rows {
        rows := rows[k := rows[k] + 1];
      } else {
        rows := rows[k := 1];
      }
      number := rows[k];
    }

    method SeedFrom(k: Key, currentMax: int)
      modifies this
      ensures k in rows && rows == old(rows)[k := rows[k]]
      ensures rows[k] >= currentMax && (k in old(rows) ==> rows[k] >= old(rows)[k])
      ensures rows[k] == currentMax || (k in old(rows) && rows[k] == old(rows)[k])
    {
      if k !in rows || rows[k] < currentMax {
        rows := rows[k := currentMax];
      }
    }
  }

  // ---- concurrent transactions ----

  /** An open transaction: the rows it has written, which it keeps locked, and the numbers it took. */
  datatype Work = Work(rows: Rows, taken: map<Key, seq<int>>)

  datatype Desk = Desk(rows: Rows, issued: map<Key, seq<int>>, open: map<nat, Work>)

  datatype Step =
    | Begin(tx: nat)
    | Next(tx: nat, key: Key)
    | Seed(tx: nat, key: Key, currentMax: int)
    | Commit(tx: nat)
    | Abort(tx: nat)

  const START := Desk(map[], map[], map[])

  function At(log: map<Key, seq<int>>, k: Key): seq<int> {
    if k in log then log[k] else []
  }

  /** Nobody else holds the row. */
  predicate Unlocked(s: Desk, tx: nat, k: Key) {
    forall u :: u in s.open && u != tx ==> k !in s.open[u].rows
  }

  function Seen(s: Desk, tx: nat, k: Key): Option<int>
    requires tx in s.open
  {
    if k in s.open[tx].rows then Some(s.open[tx].rows[k]) else RowOf(s.rows, k)
  }

  function Written(w: Work, k: Key, n: int, taken: bool): Work {
    Work(w.rows[k := n], if taken then w.taken[k := At(w.taken, k) + [n]] else w.taken)
  }

  /** A step on a row somebody else has locked waits, so it changes nothing. */
  function Apply(s: Desk, step: Step): Desk {
    match step
    case Begin(tx) =>
      if tx in s.open then s else s.(open := s.open[tx := Work(map[], map[])])
    case Next(tx, k) =>
      if tx !in s.open || !Unlocked(s, tx, k) then s
      else
        s.(open := s.open[tx := Written(s.open[tx], k, Bumped(Seen(s, tx, k)), true)])
    case Seed(tx, k, currentMax) =>
      if tx !in s.open || !Unlocked(s, tx, k) then s
      else
        s.(open := s.open[tx := Written(s.open[tx], k, Raised(Seen(s, tx, k), currentMax), false)])
    case Commit(tx) =>
      if tx !in s.open then s
      else
        var w := s.open[tx];
        Desk(s.rows + w.rows,
             map k | k in s.issued.Keys + w.taken.Keys :: At(s.issued, k) + At(w.taken, k),
             s.open - {tx})
    case Abort(tx) => s.(open := s.open - {tx})
  }

  function Run(s: Desk, steps: seq<Step>): Desk {
    if steps == [] then s else Apply(Run(s, steps[..|steps| - 1]), steps[|steps| - 1])
  }

  // ---- what holds for one key ----

  predicate Ascending(ns: seq<int>) {
    forall i, j :: 0 <= i < j < |ns| ==> ns[i] < ns[j]
  }

  predicate UpTo(ns: seq<int>, row: Option<int>) {
    ns != [] ==> row.Some? && ns[|ns| - 1] <= row.value
  }

  predicate Above(ns: seq<int>, row: Option<int>) {
    ns != [] && row.Some? ==> row.value < ns[0]
  }

  predicate KeySound(s: Desk, k: Key) {
    && Ascending(At(s.issued, k)) && UpTo(At(s.issued, k), RowOf(s.rows, k))
    && (forall t :: t in s.open ==> WorkSound(RowOf(s.rows, k), s.open[t], k))
    && (forall t, u :: t in s.open && u in s.open && t != u ==>
                         k !in s.open[t].rows || k !in s.open[u].rows)
  }

  predicate WorkSound(row: Option<int>, w: Work, k: Key) {
    && Ascending(At(w.taken, k)) && UpTo(At(w.taken, k), RowOf(w.rows, k)) && Above(At(w.taken, k), row)
    && (k in w.rows && row.Some? ==> row.value <= w.rows[k])
  }

  /** The numbers from `low + 1` to `high`, in order. */
  predicate Exactly(ns: seq<int>, low: int, high: int) {
    |ns| == high - low && forall i :: 0 <= i < |ns| ==> ns[i] == low + 1 + i
  }

  function Level(row: Option<int>): int {
    if row.Some? then row.value else 0
  }

  /** As long as a key is never seeded its numbers have no gaps. */
  predicate KeyGapless(s: Desk, k: Key) {
    && Exactly(At(s.issued, k), 0, Level(RowOf(s.rows, k)))
    && forall t :: t in s.open ==> WorkGapless(RowOf(s.rows, k), s.open[t], k)
  }

  predicate WorkGapless(row: Option<int>, w: Work, k: Key) {
    if k in w.rows then Exactly(At(w.taken, k), Level(row), w.rows[k]) else At(w.taken, k) == []
  }

  /** Writing a row nobody else holds, to no less than it shows, with at most one number taken. */
  lemma {:induction false} WriteKeepsSound(s: Desk, tx: nat, row: Key, n: int, taken: bool, k: Key)
    requires KeySound(s, k) && tx in s.open && Unlocked(s, tx, row)
    requires var seen := Seen(s, tx, row); seen.Some? ==> if taken then seen.value < n else seen.value <= n
    ensures KeySound(s.(open := s.open[tx := Written(s.open[tx], row, n, taken)]), k)
  {
    var w := s.open[tx];
    if row == k {
      assert WorkSound(RowOf(s.rows, k), w, k);
      assert WorkSound(RowOf(s.rows, k), Written(w, row, n, taken), k);
    }
  }

  lemma {:induction false} CommitSeenFrom(s: Desk, tx: nat, k: Key)
    requires tx in s.open
    ensures var w, after := s.open[tx], Apply(s, Commit(tx));
            && RowOf(after.rows, k) == (if k in w.rows then RowOf(w.rows, k) else RowOf(s.rows, k))
            && At(after.issued, k) == At(s.issued, k) + At(w.taken, k)
            && (forall t :: t in after.open <==> t in s.open && t != tx)
            && (forall t :: t in after.open ==> after.open[t] == s.open[t])
  {
  }

  lemma {:induction false} Extend(a: seq<int>, b: seq<int>, row: Option<int>, raised: Option<int>)
    requires Ascending(a) && Ascending(b) && UpTo(a, row) && Above(b, row) && UpTo(b, raised)
    requires row.Some? ==> raised.Some? && row.value <= raised.value
    ensures Ascending(a + b) && UpTo(a + b, raised)
  {
  }

  lemma {:induction false} CommitKeepsSound(s: Desk, tx: nat, k: Key)
    requires KeySound(s, k) && tx in s.open
    ensures KeySound(Apply(s, Commit(tx)), k)
  {
    var w, after := s.open[tx], Apply(s, Commit(tx));
    CommitSeenFrom(s, tx, k);
    Extend(At(s.issued, k), At(w.taken, k), RowOf(s.rows, k), RowOf(after.rows, k));
    forall t | t in after.open
      ensures WorkSound(RowOf(after.rows, k), after.open[t], k)
    {
      assert WorkSound(RowOf(s.rows, k), s.open[t], k);
    }
  }

  lemma {:induction false} StepKeepsSound(s: Desk, step: Step, k: Key)
    requires KeySound(s, k)
    ensures KeySound(Apply(s, step), k)
  {
    match step
    case Next(tx, row) =>
      if tx in s.open && Unlocked(s, tx, row) {
        WriteKeepsSound(s, tx, row, Bumped(Seen(s, tx, row)), true, k);
      }
    case Seed(tx, row, currentMax) =>
      if tx in s.open && Unlocked(s, tx, row) {
        WriteKeepsSound(s, tx, row, Raised(Seen(s, tx, row), currentMax), false, k);
      }
    case Commit(tx) =>
      if tx in s.open {
        CommitKeepsSound(s, tx, k);
      }
    case _ =>
  }

  lemma {:induction false} CommitKeepsGapless(s: Desk, tx: nat, k: Key)
    requires KeySound(s, k) && KeyGapless(s, k) && tx in s.open
    ensures KeyGapless(Apply(s, Commit(tx)), k)
  {
    var w, after := s.open[tx], Apply(s, Commit(tx));
    CommitSeenFrom(s, tx, k);
    assert WorkGapless(RowOf(s.rows, k), w, k);
    forall t | t in after.open
      ensures WorkGapless(RowOf(after.rows, k), after.open[t], k)
    {
      assert WorkGapless(RowOf(s.rows, k), s.open[t], k);
    }
  }

  lemma {:induction false} NextKeepsGapless(s: Desk, tx: nat, row: Key, k: Key)
    requires KeyGapless(s, k) && tx in s.open && Unlocked(s, tx, row)
    ensures KeyGapless(Apply(s, Next(tx, row)), k)
  {
    assert WorkGapless(RowOf(s.rows, k), s.open[tx], k);
    assert WorkGapless(RowOf(s.rows, k), Apply(s, Next(tx, row)).open[tx], k);
  }

  lemma {:induction false} StepKeepsGapless(s: Desk, step: Step, k: Key)
    requires KeySound(s, k) && KeyGapless(s, k)
    requires step.Seed? ==> step.key != k
    ensures KeyGapless(Apply(s, step), k)
  {
    match step
    case Next(tx, row) =>
      if tx in s.open && Unlocked(s, tx, row) {
        NextKeepsGapless(s, tx, row, k);
      }
    case Commit(tx) =>
      if tx in s.open {
        CommitKeepsGapless(s, tx, k);
      }
    case _ =>
  }

  /** In every interleaving, with any rollbacks and any seeding, the committed numbers of a key ascend. */
  lemma {:induction false} CommittedNumbersAreDistinct(steps: seq<Step>, k: Key)
    ensures KeySound(Run(START, steps), k)
    ensures Ascending(At(Run(START, steps).issued, k))
  {
    if steps != [] {
      CommittedNumbersAreDistinct(steps[..|steps| - 1], k);
      StepKeepsSound(Run(START, steps[..|steps| - 1]), steps[|steps| - 1], k);
    }
  }

  predicate NeverSeeded(steps: seq<Step>, k: Key) {
    forall i :: 0 <= i < |steps| ==> steps[i].Seed? ==> steps[i].key != k
  }

  /** Without seeding they are exactly 1, 2, ... up to the counter's value. */
  lemma {:induction false} CommittedNumbersAreGapless(steps: seq<Step>, k: Key)
    requires NeverSeeded(steps, k)
    ensures KeyGapless(Run(START, steps), k)
    ensures var s := Run(START, steps);
            Exactly(At(s.issued, k), 0, Level(RowOf(s.rows, k)))
  {
    if steps != [] {
      var front := steps[..|steps| - 1];
      CommittedNumbersAreGapless(front, k);
      CommittedNumbersAreDistinct(front, k);
      StepKeepsGapless(Run(START, front), steps[|steps| - 1], k);
    }
  }

  /** No step, committed or not, lowers a counter. */
  lemma {:induction false} CountersNeverFall(steps: seq<Step>, step: Step, k: Key)
    requires k in Run(START, steps).rows
    ensures k in Apply(Run(START, steps), step).rows
    ensures Run(START, steps).rows[k] <= Apply(Run(START, steps), step).rows[k]
  {
    CommittedNumbersAreDistinct(steps, k);
  }

  /** Seeding continues from numbers already given out, so never from a negative one. */
  predicate SeededFromCounts(steps: seq<Step>, k: Key) {
    forall i :: 0 <= i < |steps| ==> steps[i].Seed? && steps[i].key == k ==> steps[i].currentMax >= 0
  }

  predicate AllPositive(ns: seq<int>) {
    forall i :: 0 <= i < |ns| ==> ns[i] > 0
  }

  predicate KeyPositive(s: Desk, k: Key) {
    && AllPositive(At(s.issued, k)) && Level(RowOf(s.rows, k)) >= 0
    && forall t :: t in s.open ==> AllPositive(At(s.open[t].taken, k)) && Level(RowOf(s.open[t].rows, k)) >= 0
  }

  lemma {:induction false} WriteKeepsPositive(s: Desk, tx: nat, row: Key, n: int, taken: bool, k: Key)
    requires KeyPositive(s, k) && tx in s.open
    requires row == k ==> if taken then n > 0 else n >= 0
    ensures KeyPositive(s.(open := s.open[tx := Written(s.open[tx], row, n, taken)]), k)
  {
    assert At(Written(s.open[tx], row, n, taken).taken, k)
        == At(s.open[tx].taken, k) + if taken && row == k then [n] else [];
  }

  lemma {:induction false} StepKeepsPositive(s: Desk, step: Step, k: Key)
    requires KeyPositive(s, k) && (step.Seed? && step.key == k ==> step.currentMax >= 0)
    ensures KeyPositive(Apply(s, step), k)
  {
    match step
    case Next(tx, row) =>
      if tx in s.open && Unlocked(s, tx, row) {
        WriteKeepsPositive(s, tx, row, Bumped(Seen(s, tx, row)), true, k);
      }
    case Seed(tx, row, currentMax) =>
      if tx in s.open && Unlocked(s, tx, row) {
        WriteKeepsPositive(s, tx, row, Raised(Seen(s, tx, row), currentMax), false, k);
      }
    case Commit(tx) =>
      if tx in s.open {
        CommitSeenFrom(s, tx, k);
      }
    case _ =>
  }

  lemma {:induction false} CommittedNumbersArePositive(steps: seq<Step>, k: Key)
    requires SeededFromCounts(steps, k)
    ensures KeyPositive(Run(START, steps), k)
  {
    if steps != [] {
      var front := steps[..|steps| - 1];
      CommittedNumbersArePositive(front, k);
      StepKeepsPositive(Run(START, front), steps[|steps| - 1], k);
    }
  }

  /** So no two committed orders of a store share an order number, also where the counter was seeded
      from existing orders. */
  lemma {:induction false} OrderNumbersAreUnique(steps: seq<Step>, k: Key, i: nat, j: nat)
    requires SeededFromCounts(steps, k)
    requires i < j < |At(Run(START, steps).issued, k)|
    ensures var ns := At(Run(START, steps).issued, k);
            ns[i] > 0 && ns[j] > 0 && Decimal.OrderNumber(ns[i]) != Decimal.OrderNumber(ns[j])
  {
    CommittedNumbersArePositive(steps, k);
    CommittedNumbersAreDistinct(steps, k);
    var ns := At(Run(START, steps).issued, k);
    Decimal.OrderNumbersDiffer(ns[i], ns[j]);
  }
}
