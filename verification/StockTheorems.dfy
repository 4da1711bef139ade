/** What the stock services guarantee together: every run, first-in-first-out, and checkout. */
module StockTheorems {
  import opened Basics
  import opened Stock
  import opened StockOps
  import Fifo

  // ---- every run ----

  datatype Op =
    | OpCreateBatch(store: nat, fabric: string, code: string, quantity: int, bought: int)
    | OpAdjust(store: nat, batch: nat, delta: int)
    | OpTransfer(batch: nat, dest: nat, quantity: int)
    | OpCreateOrder(store: nat, fabrics: seq<Fabric>)
    | OpCheckout(store: nat, garments: seq<Garment>)
    | OpCut(item: nat)
    | OpRelease(items: set<nat>)

  /** One transaction: it commits or leaves the tables as they were. */
  function Apply(s: Tables, stores: set<nat>, op: Op): Tables
    requires HoldsPlaced(s)
  {
    match op
    case OpCreateBatch(store, fabric, code, quantity, bought) =>
      Committed(CreateBatch(s, store, fabric, code, quantity, bought), s)
    case OpAdjust(store, batch, delta) => Committed(AdjustBatch(s, store, batch, delta), s)
    case OpTransfer(batch, dest, quantity) => Committed(Transfer(s, stores, batch, dest, quantity), s)
    case OpCreateOrder(store, fabrics) => Committed(CreateOrder(s, store, fabrics), s)
    case OpCheckout(store, garments) =>
      if YieldsPositive(garments) then Committed(ReserveAll(s, store, garments), s) else s
    case OpCut(item) => Committed(ConsumeForItem(s, item), s)
    case OpRelease(items) => Committed(ReleaseForOrder(s, items), s)
  }

  function Committed<T>(r: Result<T>, before: Tables): Tables {
    if r.Done? then r.tables else before
  }

  /** `computeYield` rounds a positive length up and never returns zero. */
  predicate YieldsPositive(garments: seq<Garment>) {
    forall i :: 0 <= i < |garments| ==> garments[i].meters > 0
  }

  lemma StepKeeps(s: Tables, stores: set<nat>, op: Op)
    requires Kept(s)
    ensures Kept(Apply(s, stores, op))
  {
    match op {
      case OpCreateBatch(store, fabric, code, quantity, bought) =>
        if CreateBatch(s, store, fabric, code, quantity, bought).Done? {
          CreateBatchKeeps(s, store, fabric, code, quantity, bought);
        }
      case OpAdjust(store, batch, delta) =>
        if AdjustBatch(s, store, batch, delta).Done? {
          AdjustBatchKeeps(s, store, batch, delta);
        }
      case OpTransfer(batch, dest, quantity) =>
        if Transfer(s, stores, batch, dest, quantity).Done? {
          TransferKeeps(s, stores, batch, dest, quantity);
        }
      case OpCreateOrder(store, fabrics) =>
        if CreateOrder(s, store, fabrics).Done? {
          CreateOrderKeeps(s, store, fabrics);
        }
      case OpCheckout(store, garments) =>
        if YieldsPositive(garments) && ReserveAll(s, store, garments).Done? {
          ReserveAllKeeps(s, store, garments);
        }
      case OpCut(item) => ConsumeForItemSucceeds(s, item);
      case OpRelease(items) => ReleaseForOrderSucceeds(s, items);
    }
  }

  ghost predicate Reached(trace: seq<Tables>, ops: seq<Op>, stores: set<nat>) {
    && |trace| == |ops| + 1
    && trace[0] == Tables([], [], [])
    && forall i :: 0 <= i < |ops| ==> HoldsPlaced(trace[i]) && trace[i + 1] == Apply(trace[i], stores, ops[i])
  }

  /** In every reachable state the tables are sound and the metres on hand are accounted for. */
  lemma {:induction false} EveryRunKeepsTheStock(trace: seq<Tables>, ops: seq<Op>, stores: set<nat>)
    requires Reached(trace, ops, stores)
    ensures var s := trace[|ops|];
            && Kept(s)
            && OnHand(s.batches) == Metres(s.log, PurchaseIn) + Adjusted(s.log) - Metres(s.log, OrderOut)
            && forall b :: 0 <= b < |s.batches| ==>
                 && 0 <= s.batches[b].reserved == HeldOn(s.holds, b, Open) <= s.batches[b].current
                 && CutFrom(s.log, b) == HeldOn(s.holds, b, Consumed)
  {
    if ops != [] {
      EveryRunKeepsTheStock(trace[..|ops|], ops[..|ops| - 1], stores);
      StepKeeps(trace[|ops| - 1], stores, ops[|ops| - 1]);
    }
    var s := trace[|ops|];
    assert Kept(s);
    StockIsConserved(s);
    forall b | 0 <= b < |s.batches|
      ensures 0 <= s.batches[b].reserved == HeldOn(s.holds, b, Open) <= s.batches[b].current
      ensures CutFrom(s.log, b) == HeldOn(s.holds, b, Consumed)
    {
      assert RowFits(s, b);
    }
  }

  /** One roll of 100.00 m, and the same roll with 10.00 m reserved for order item 0. */
  const ROLL: Batch := Batch(0, "wool", "R1", 10000, 0, DEFAULT_MIN_USABLE, 0, Available)
  const BOUGHT: Tables := Tables([ROLL], [Movement(0, PurchaseIn, 10000, 0, 10000, None)], [])
  const SOLD: Tables := Tables([ROLL.(reserved := 1000)], BOUGHT.log, [Hold(0, 0, 1000, Open)])

  lemma {:induction false} BoughtIsReached()
    ensures CreateBatch(Tables([], [], []), 0, "wool", "R1", 10000, 0) == Done(BOUGHT, 0)
  {
  }

  lemma {:induction false} SoldIsReached()
    ensures ReserveAll(BOUGHT, 0, [Garment(0, Some(0), 1000)]) == Done(SOLD, ())
  {
    var garments := [Garment(0, Some(0), 1000)];
    assert garments[..0] == [];
    assert ReserveAll(BOUGHT, 0, garments[..0]) == Done(BOUGHT, ());
  }

  lemma {:induction false} CutAlone(s: Tables)
    requires HoldsPlaced(s) && |s.holds| > 0 && CutHold(s, 0).Some?
    ensures CutAll(s, [0]) == Done(CutHold(s, 0).value, 1)
  {
    hide CutHold;
    assert [0][..0] == [];
    assert CutAll(s, [0][..0]) == Done(s, 0);
  }

  lemma {:induction false} EmptyIsKept()
    ensures Kept(Tables([], [], []))
  {
    assert forall item: nat :: ItemFits(Tables([], [], []), item);
  }

  lemma {:induction false} SoldIsKept(stores: set<nat>)
    ensures Apply(Tables([], [], []), stores, OpCreateBatch(0, "wool", "R1", 10000, 0)) == BOUGHT
    ensures Apply(BOUGHT, stores, OpCheckout(0, [Garment(0, Some(0), 1000)])) == SOLD
    ensures Kept(SOLD)
  {
    hide CreateBatch, ReserveAll, LogFits, DeductedFor, ConsumedFor;
    EmptyIsKept();
    BoughtIsReached();
    SoldIsReached();
    StepKeeps(Tables([], [], []), stores, OpCreateBatch(0, "wool", "R1", 10000, 0));
    StepKeeps(BOUGHT, stores, OpCheckout(0, [Garment(0, Some(0), 1000)]));
  }

  /** Two overlapping cuts after a purchase and a sale: both select the one reservation, 20.00 m leave
      the roll and only 10.00 m were reserved. */
  lemma {:induction false} OverlappingCutsCanHappen(stores: set<nat>)
    ensures Apply(Tables([], [], []), stores, OpCreateBatch(0, "wool", "R1", 10000, 0)) == BOUGHT
    ensures Apply(BOUGHT, stores, OpCheckout(0, [Garment(0, Some(0), 1000)])) == SOLD
    ensures OpenHolds(SOLD.holds, {0}) == [0]
    ensures CutAll(SOLD, [0]).Done? && CutAll(CutAll(SOLD, [0]).tables, [0]).Done?
    ensures var twice := CutAll(CutAll(SOLD, [0]).tables, [0]).tables;
            |twice.batches| == 1 && twice.batches[0].current == 8000 && DeductedFor(twice.log, 0) == 2000
  {
    hide Apply, CutAll, CutHold, DeductedFor, Sound, TransfersCancel;
    SoldIsKept(stores);
    TwoCutsDeductTwice(SOLD, 0);
    CutAlone(SOLD);
    var once := CutHold(SOLD, 0).value;
    CutAlone(once);
    var twice := CutHold(once, 0).value;
    assert twice.holds[..0] == [];
    assert ConsumedFor(twice.holds, 0) == 1000;
  }

  // ---- first in, first out ----

  /** A row after the drain left it with this balance. */
  function LeftWith(row: Batch, left: int): Batch {
    row.(current := left, status := StatusAfterDraw(row, left))
  }

  predicate RowsToDrain(batches: seq<Batch>, rows: seq<nat>) {
    && (forall i :: 0 <= i < |rows| ==>
          rows[i] < |batches| && batches[rows[i]].current > 0 && RowChecked(batches[rows[i]]))
    && (forall i, j :: 0 <= i < j < |rows| ==> rows[i] != rows[j])
  }

  /** Every reservation still fits under what the drain leaves. */
  predicate Fits(batches: seq<Batch>, rows: seq<nat>, left: seq<nat>)
    requires |left| == |rows| && forall i :: 0 <= i < |rows| ==> rows[i] < |batches|
  {
    forall i :: 0 <= i < |rows| ==> batches[rows[i]].reserved <= left[i]
  }

  /** Each drained row keeps what is left for it, and every other row is untouched. */
  predicate DrainedTo(before: seq<Batch>, after: seq<Batch>, rows: seq<nat>, left: seq<nat>)
    requires |left| == |rows| && forall i :: 0 <= i < |rows| ==> rows[i] < |before|
  {
    && |after| == |before|
    && (forall i :: 0 <= i < |rows| ==> after[rows[i]] == LeftWith(before[rows[i]], left[i]))
    && (forall b: nat :: b < |before| && b !in rows ==> after[b] == before[b])
  }

  lemma DrawIs(s: Tables, b: nat, take: int)
    requires b < |s.batches| && RowChecked(s.batches[b]) && 0 < take <= s.batches[b].current
    ensures var left := s.batches[b].current - take;
            && (Draw(s, b, take).Some? <==> s.batches[b].reserved <= left)
            && (Draw(s, b, take).Some? ==>
                  && Draw(s, b, take).value.batches == s.batches[b := LeftWith(s.batches[b], left)]
                  && Draw(s, b, take).value.holds == s.holds)
  {
  }

  /** Draining the first row and then the others is draining them all. */
  lemma DrainedInTwo(before: seq<Batch>, mid: seq<Batch>, after: seq<Batch>, rows: seq<nat>, left: seq<nat>)
    requires RowsToDrain(before, rows) && |left| == |rows| && rows != []
    requires mid == before[rows[0] := LeftWith(before[rows[0]], left[0])]
    ensures DrainedTo(mid, after, rows[1..], left[1..]) ==> DrainedTo(before, after, rows, left)
    ensures Fits(before, rows, left) <==>
              before[rows[0]].reserved <= left[0] && Fits(mid, rows[1..], left[1..])
  {
    var tail := rows[1..];
    forall i | 0 <= i < |tail|
      ensures tail[i] == rows[i + 1] && mid[tail[i]] == before[tail[i]] && left[1..][i] == left[i + 1]
    {
    }
    assert rows[0] !in tail;
    if before[rows[0]].reserved <= left[0] && Fits(mid, tail, left[1..]) {
      forall i | 0 <= i < |rows|
        ensures before[rows[i]].reserved <= left[i]
      {
        assert i > 0 ==> rows[i] == tail[i - 1];
      }
    }
    if DrainedTo(mid, after, tail, left[1..]) {
      forall i | 0 <= i < |rows|
        ensures after[rows[i]] == LeftWith(before[rows[i]], left[i])
      {
        if i == 0 {
          assert after[rows[0]] == mid[rows[0]];
        } else {
          assert rows[i] == tail[i - 1];
        }
      }
      forall b: nat | b < |before| && b !in rows
        ensures after[b] == before[b]
      {
        assert b !in tail && b != rows[0];
      }
    }
  }

  lemma TailBalances(s: Tables, t: Tables, rows: seq<nat>, row: Batch)
    requires RowsToDrain(s.batches, rows) && rows != [] && t.batches == s.batches[rows[0] := row]
    ensures RowsToDrain(t.batches, rows[1..])
    ensures Balances(t.batches, rows[1..]) == Balances(s.batches, rows)[1..]
  {
    forall i | 0 <= i < |rows[1..]|
      ensures rows[1..][i] == rows[i + 1] && t.batches[rows[1..][i]] == s.batches[rows[i + 1]]
    {
    }
  }

  /** The row-by-row drain is the drain on balances; it is refused exactly when some roll would be
      left with less than is reserved on it. */
  lemma {:induction false} DrainRowsIs(s: Tables, rows: seq<nat>, need: nat)
    requires RowsToDrain(s.batches, rows)
    ensures var left := Fifo.Left(Balances(s.batches, rows), need);
            var r := DrainRows(s, rows, need);
            && (r.Done? <==> Fits(s.batches, rows, left))
            && (r.Done? ==> r.tables.holds == s.holds && DrainedTo(s.batches, r.tables.batches, rows, left))
    decreases |rows|
  {
    var balances := Balances(s.batches, rows);
    if need == 0 {
      NothingToDrain(balances);
    } else if rows != [] {
      var take := Min(need, s.batches[rows[0]].current);
      var left := Fifo.Left(balances, need);
      Fifo.LeftFront(balances, need);
      assert left[0] == s.batches[rows[0]].current - take;
      assert left[1..] == Fifo.Left(balances[1..], need - take);
      DrawIs(s, rows[0], take);
      var row := LeftWith(s.batches[rows[0]], left[0]);
      var mid := s.batches[rows[0] := row];
      if Draw(s, rows[0], take).Some? {
        var t := Draw(s, rows[0], take).value;
        TailBalances(s, t, rows, row);
        DrainRowsIs(t, rows[1..], need - take);
        var inner := DrainRows(t, rows[1..], need - take);
        DrainedInTwo(s.batches, mid, if inner.Done? then inner.tables.batches else mid, rows, left);
      } else {
        DrainedInTwo(s.batches, mid, mid, rows, left);
      }
    }
  }

  lemma {:induction false} NothingToDrain(balances: seq<nat>)
    ensures Fifo.Left(balances, 0) == balances
  {
    if balances != [] {
      NothingToDrain(balances[1..]);
      Fifo.LeftFront(balances, 0);
    }
  }

  lemma FifoRowsToDrain(s: Tables, store: nat, fabric: string)
    requires Kept(s)
    ensures RowsToDrain(s.batches, FifoRows(s.batches, store, fabric))
  {
    EligibleRows(s.batches, store, fabric);
    var rows := FifoRows(s.batches, store, fabric);
    forall i | 0 <= i < |rows|
      ensures RowChecked(s.batches[rows[i]])
    {
      assert RowFits(s, rows[i]);
    }
  }

  /** FIFO is refused exactly when the fabric is short or a roll's reservations would not fit under
      what is left; otherwise each eligible roll keeps what the greedy drain leaves. */
  lemma FifoConsumeIs(s: Tables, store: nat, fabric: string, need: nat)
    requires Kept(s)
    ensures var rows := FifoRows(s.batches, store, fabric);
            && RowsToDrain(s.batches, rows)
            && var balances := Balances(s.batches, rows);
               var left := Fifo.Left(balances, need);
               var r := FifoConsume(s, store, fabric, need);
               && (r.Done? <==> need <= Fifo.Total(balances) && Fits(s.batches, rows, left))
               && (r.Done? ==> Kept(r.tables) && r.tables.holds == s.holds
                               && DrainedTo(s.batches, r.tables.batches, rows, left))
  {
    FifoRowsToDrain(s, store, fabric);
    var rows := FifoRows(s.batches, store, fabric);
    DrainRowsIs(s, rows, need);
    if FifoConsume(s, store, fabric, need).Done? {
      DrainRowsKeeps(s, rows, need);
    }
  }

  /** The row order is determined by the set of rows. */
  lemma {:induction false} AgeOrderIsUnique(batches: seq<Batch>, xs: seq<nat>, ys: seq<nat>)
    requires InAgeOrder(batches, xs) && InAgeOrder(batches, ys)
    requires forall r: nat :: r in xs <==> r in ys
    ensures xs == ys
  {
    assert xs != [] ==> xs[|xs| - 1] in ys;
    assert ys != [] ==> ys[|ys| - 1] in xs;
    if xs != [] && ys != [] {
      var x, y := xs[|xs| - 1], ys[|ys| - 1];
      LastIsYoungest(batches, xs, ys);
      LastIsYoungest(batches, ys, xs);
      assert x == y;
      var fx, fy := xs[..|xs| - 1], ys[..|ys| - 1];
      forall r: nat
        ensures r in fx <==> r in fy
      {
        FrontMembers(batches, xs, r);
        FrontMembers(batches, ys, r);
      }
      AgeOrderIsUnique(batches, fx, fy);
      assert xs == fx + [x] && ys == fy + [y];
    }
  }

  lemma LastIsYoungest(batches: seq<Batch>, xs: seq<nat>, ys: seq<nat>)
    requires InAgeOrder(batches, xs) && InAgeOrder(batches, ys) && xs != [] && ys != []
    requires forall r: nat :: r in xs <==> r in ys
    ensures var x, y := xs[|xs| - 1], ys[|ys| - 1]; x == y || Older(batches, x, y)
  {
    var x, y := xs[|xs| - 1], ys[|ys| - 1];
    assert x in ys;
    var k :| 0 <= k < |ys| && ys[k] == x;
  }

  lemma FrontMembers(batches: seq<Batch>, xs: seq<nat>, r: nat)
    requires InAgeOrder(batches, xs) && xs != []
    ensures r in xs[..|xs| - 1] <==> r in xs && r != xs[|xs| - 1]
  {
    var front := xs[..|xs| - 1];
    assert xs == front + [xs[|xs| - 1]];
    if r in front {
      var k :| 0 <= k < |front| && front[k] == r;
      assert Older(batches, xs[k], xs[|xs| - 1]);
    }
  }

  function LeadingZeros(xs: seq<nat>): (n: nat)
    ensures n <= |xs| && (forall i :: 0 <= i < n ==> xs[i] == 0) && (n < |xs| ==> xs[n] > 0)
  {
    if xs == [] || xs[0] > 0 then 0 else 1 + LeadingZeros(xs[1..])
  }

  /** What a drain empties is a front part of the rows. */
  lemma EmptiedIsAFront(balances: seq<nat>, need: nat)
    requires need <= Fifo.Total(balances) && forall i :: 0 <= i < |balances| ==> balances[i] > 0
    ensures var left := Fifo.Left(balances, need);
            forall i :: LeadingZeros(left) <= i < |left| ==> left[i] > 0
  {
    var left := Fifo.Left(balances, need);
    var n := LeadingZeros(left);
    forall i | n <= i < |left|
      ensures left[i] > 0
    {
      Fifo.LeftAt(balances, need, n);
      Fifo.LeftAt(balances, need, i);
      if n < i {
        Fifo.DrainIsGreedy(balances, need, n, i);
      }
    }
  }

  lemma {:induction false} DrainSkipsZeros(xs: seq<nat>, n: nat, need: nat)
    requires n <= |xs| && forall i :: 0 <= i < n ==> xs[i] == 0
    ensures Fifo.Left(xs, need) == xs[..n] + Fifo.Left(xs[n..], need)
    ensures Fifo.Total(xs[n..]) == Fifo.Total(xs)
  {
    if n == 0 {
      assert xs[0..] == xs;
    } else {
      hide Fifo.Left, Fifo.Total;
      DrainSkipsZeros(xs[1..], n - 1, need);
      Fifo.LeftFront(xs, need);
      Fifo.TotalFromFront(xs);
      assert xs[1..][n - 1..] == xs[n..];
      Regroup([xs[0]], xs[1..][..n - 1], Fifo.Left(xs[n..], need));
      assert [xs[0]] + xs[1..][..n - 1] == xs[..n];
    }
  }

  /** After a first draw, the rows not emptied are exactly the eligible ones. */
  lemma EligibleAfterDraw(before: seq<Batch>, after: seq<Batch>, store: nat, fabric: string,
                          rows: seq<nat>, left: seq<nat>, n: nat, r: nat)
    requires RowsToDrain(before, rows) && |left| == |rows| && DrainedTo(before, after, rows, left)
    requires forall r: nat :: r in rows <==> r < |before| && Eligible(before[r], store, fabric)
    requires n <= |rows| && forall i :: 0 <= i < |rows| ==> (left[i] == 0 <==> i < n)
    ensures r in rows[n..] <==> r < |after| && Eligible(after[r], store, fabric)
  {
    if r in rows {
      var i :| 0 <= i < |rows| && rows[i] == r;
      assert after[r] == LeftWith(before[r], left[i]);
      if i >= n {
        assert rows[n..][i - n] == r;
      }
    }
  }

  lemma OrderAfterDraw(before: seq<Batch>, after: seq<Batch>, rows: seq<nat>, left: seq<nat>, n: nat)
    requires RowsToDrain(before, rows) && |left| == |rows| && DrainedTo(before, after, rows, left)
    requires InAgeOrder(before, rows) && n <= |rows|
    ensures InAgeOrder(after, rows[n..])
  {
    forall i, j | 0 <= i < j < |rows[n..]|
      ensures Older(after, rows[n..][i], rows[n..][j])
    {
      assert Older(before, rows[n + i], rows[n + j]);
      assert after[rows[n + i]] == LeftWith(before[rows[n + i]], left[n + i]);
      assert after[rows[n + j]] == LeftWith(before[rows[n + j]], left[n + j]);
    }
  }

  /** After a first draw the query returns what was not emptied, in the same order. */
  lemma RowsAfterDraw(s: Tables, store: nat, fabric: string, a: nat)
    requires Kept(s) && FifoConsume(s, store, fabric, a).Done?
    ensures var rows := FifoRows(s.batches, store, fabric);
            var t := FifoConsume(s, store, fabric, a).tables;
            && RowsToDrain(s.batches, rows)
            && var left := Fifo.Left(Balances(s.batches, rows), a);
               var n := LeadingZeros(left);
               FifoRows(t.batches, store, fabric) == rows[n..]
  {
    FifoConsumeIs(s, store, fabric, a);
    var rows := FifoRows(s.batches, store, fabric);
    var t := FifoConsume(s, store, fabric, a).tables;
    var balances := Balances(s.batches, rows);
    var left := Fifo.Left(balances, a);
    var n := LeadingZeros(left);
    EmptiedIsAFront(balances, a);
    OrderAfterDraw(s.batches, t.batches, rows, left, n);
    forall r: nat
      ensures r in rows[n..] <==> r < |t.batches| && Eligible(t.batches[r], store, fabric)
    {
      EligibleAfterDraw(s.batches, t.batches, store, fabric, rows, left, n, r);
    }
    AgeOrderIsUnique(t.batches, FifoRows(t.batches, store, fabric), rows[n..]);
  }

  lemma BalancesAfterDraw(before: seq<Batch>, after: seq<Batch>, rows: seq<nat>, left: seq<nat>, n: nat)
    requires RowsToDrain(before, rows) && |left| == |rows| && DrainedTo(before, after, rows, left)
    requires n <= |rows| && RowsToDrain(after, rows[n..])
    ensures Balances(after, rows[n..]) == left[n..]
  {
    forall i | 0 <= i < |rows[n..]|
      ensures after[rows[n..][i]].current == left[n..][i]
    {
      assert after[rows[n + i]] == LeftWith(before[rows[n + i]], left[n + i]);
    }
  }

  /** Draining rows twice, the second time without those emptied, is draining them once. */
  lemma DrainedTwice(before: seq<Batch>, mid: seq<Batch>, once: seq<Batch>, twice: seq<Batch>,
                     rows: seq<nat>, leftA: seq<nat>, leftAB: seq<nat>, n: nat)
    requires RowsToDrain(before, rows) && |leftA| == |rows| == |leftAB| && n <= |rows|
    requires DrainedTo(before, mid, rows, leftA) && RowsToDrain(mid, rows[n..])
    requires DrainedTo(before, once, rows, leftAB) && DrainedTo(mid, twice, rows[n..], leftAB[n..])
    requires forall i :: 0 <= i < n ==> leftAB[i] == leftA[i] == 0
    ensures once == twice
  {
    forall r: nat | r < |before|
      ensures once[r] == twice[r]
    {
      if r in rows {
        var i :| 0 <= i < |rows| && rows[i] == r;
        DrainedTwiceAt(before, mid, once, twice, rows, leftA, leftAB, n, i);
      } else {
        assert r !in rows[n..];
      }
    }
  }

  lemma DrainedTwiceAt(before: seq<Batch>, mid: seq<Batch>, once: seq<Batch>, twice: seq<Batch>,
                       rows: seq<nat>, leftA: seq<nat>, leftAB: seq<nat>, n: nat, i: nat)
    requires RowsToDrain(before, rows) && |leftA| == |rows| == |leftAB| && n <= |rows| && i < |rows|
    requires DrainedTo(before, mid, rows, leftA) && RowsToDrain(mid, rows[n..])
    requires DrainedTo(before, once, rows, leftAB) && DrainedTo(mid, twice, rows[n..], leftAB[n..])
    requires i < n ==> leftAB[i] == leftA[i] == 0
    ensures once[rows[i]] == twice[rows[i]]
  {
    assert mid[rows[i]] == LeftWith(before[rows[i]], leftA[i]);
    assert once[rows[i]] == LeftWith(before[rows[i]], leftAB[i]);
    if i >= n {
      assert rows[n..][i - n] == rows[i] && leftAB[n..][i - n] == leftAB[i];
      assert twice[rows[n..][i - n]] == LeftWith(mid[rows[i]], leftAB[i]);
    } else {
      assert rows[i] !in rows[n..];
    }
  }

  /** What two draws leave of the balances, by the position up to which the first empties them. */
  lemma LeftInTwo(balances: seq<nat>, a: nat, b: nat, leftA: seq<nat>, leftAB: seq<nat>, n: nat)
    requires leftA == Fifo.Left(balances, a) && leftAB == Fifo.Left(balances, a + b) && n == LeadingZeros(leftA)
    ensures |leftA| == |leftAB| == |balances| && n <= |balances|
    ensures forall i :: 0 <= i < n ==> leftAB[i] == leftA[i] == 0
    ensures leftAB[n..] == Fifo.Left(leftA[n..], b)
    ensures Fifo.Total(leftA[n..]) == Fifo.Total(balances) - Min(a, Fifo.Total(balances))
  {
    hide Fifo.Takes, Fifo.Total;
    Fifo.DrainTwice(balances, a, b);
    DrainSkipsZeros(leftA, n, b);
  }

  /** The second draw in terms of the rows of the first. */
  lemma SecondQuery(s: Tables, store: nat, fabric: string, a: nat, b: nat, t: Tables,
                    rows: seq<nat>, leftA: seq<nat>, leftAB: seq<nat>, n: nat)
    requires Kept(s) && FifoConsume(s, store, fabric, a).Done?
    requires t == FifoConsume(s, store, fabric, a).tables && rows == FifoRows(s.batches, store, fabric)
    requires RowsToDrain(s.batches, rows) && |leftA| == |rows| == |leftAB| && n <= |rows|
    requires leftA == Fifo.Left(Balances(s.batches, rows), a) && n == LeadingZeros(leftA)
    requires leftAB[n..] == Fifo.Left(leftA[n..], b)
    ensures Kept(t) && DrainedTo(s.batches, t.batches, rows, leftA) && Fits(s.batches, rows, leftA)
    ensures RowsToDrain(t.batches, rows[n..])
    ensures var second := FifoConsume(t, store, fabric, b);
            && (second.Done? <==> b <= Fifo.Total(leftA[n..]) && Fits(t.batches, rows[n..], leftAB[n..]))
            && (second.Done? ==> DrainedTo(t.batches, second.tables.batches, rows[n..], leftAB[n..]))
  {
    hide Kept, FifoConsume, FifoRows, Fifo.Left, Fifo.Total, DrainedTo, Fits, RowsToDrain, LeadingZeros, Balances;
    FifoConsumeIs(s, store, fabric, a);
    RowsAfterDraw(s, store, fabric, a);
    FifoConsumeIs(t, store, fabric, b);
    BalancesAfterDraw(s.batches, t.batches, rows, leftA, n);
  }

  lemma SecondDraw(s: Tables, store: nat, fabric: string, a: nat, b: nat)
    requires Kept(s) && FifoConsume(s, store, fabric, a).Done?
    ensures var whole := FifoConsume(s, store, fabric, a + b);
            var second := FifoConsume(FifoConsume(s, store, fabric, a).tables, store, fabric, b);
            && (whole.Done? <==> second.Done?)
            && (whole.Done? ==> second.tables.batches == whole.tables.batches)
  {
    hide Kept, FifoConsume, FifoRows, Fifo.Left, Fifo.Total, DrainedTo, Fits, RowsToDrain, LeadingZeros;
    FifoConsumeIs(s, store, fabric, a);
    FifoConsumeIs(s, store, fabric, a + b);
    var t, rows := FifoConsume(s, store, fabric, a).tables, FifoRows(s.batches, store, fabric);
    var balances := Balances(s.batches, rows);
    var leftA, leftAB := Fifo.Left(balances, a), Fifo.Left(balances, a + b);
    var n := LeadingZeros(leftA);
    LeftInTwo(balances, a, b, leftA, leftAB, n);
    SecondQuery(s, store, fabric, a, b, t, rows, leftA, leftAB, n);
    FitsSplits(s.batches, t.batches, rows, leftA, leftAB, n);
    var whole, second := FifoConsume(s, store, fabric, a + b), FifoConsume(t, store, fabric, b);
    if whole.Done? && second.Done? {
      DrainedTwice(s.batches, t.batches, whole.tables.batches, second.tables.batches, rows, leftA, leftAB, n);
    }
  }

  /** Consuming a and then b succeeds exactly when consuming a + b does, and leaves the same rolls. */
  lemma FifoInTwoSteps(s: Tables, store: nat, fabric: string, a: nat, b: nat)
    requires Kept(s)
    ensures var whole := FifoConsume(s, store, fabric, a + b);
            var first := FifoConsume(s, store, fabric, a);
            && (whole.Done? <==> first.Done? && FifoConsume(first.tables, store, fabric, b).Done?)
            && (whole.Done? ==>
                  FifoConsume(first.tables, store, fabric, b).tables.batches == whole.tables.batches)
  {
    hide Kept, FifoConsume, FifoRows;
    FifoConsumeIs(s, store, fabric, a);
    FifoConsumeIs(s, store, fabric, a + b);
    var rows := FifoRows(s.batches, store, fabric);
    var balances := Balances(s.batches, rows);
    var leftA := Fifo.Left(balances, a);
    Fifo.DrainTwice(balances, a, b);
    forall i | 0 <= i < |rows|
      ensures Fifo.Left(balances, a + b)[i] <= leftA[i]
    {
      Fifo.LeftAt(leftA, b, i);
    }
    if FifoConsume(s, store, fabric, a).Done? {
      SecondDraw(s, store, fabric, a, b);
    }
  }

  lemma FitsSplits(before: seq<Batch>, after: seq<Batch>, rows: seq<nat>, leftA: seq<nat>, leftAB: seq<nat>, n: nat)
    requires RowsToDrain(before, rows) && |leftA| == |rows| == |leftAB| && n <= |rows|
    requires DrainedTo(before, after, rows, leftA)
    requires forall i :: 0 <= i < n ==> leftAB[i] == leftA[i]
    requires Fits(before, rows, leftA)
    ensures Fits(before, rows, leftAB) <==> Fits(after, rows[n..], leftAB[n..])
  {
    forall i | 0 <= i < |rows[n..]|
      ensures after[rows[n..][i]].reserved == before[rows[n + i]].reserved
    {
      assert after[rows[n + i]] == LeftWith(before[rows[n + i]], leftA[n + i]);
    }
    if Fits(after, rows[n..], leftAB[n..]) {
      forall i | 0 <= i < |rows|
        ensures before[rows[i]].reserved <= leftAB[i]
      {
        if i >= n {
          assert rows[n..][i - n] == rows[i] && leftAB[n..][i - n] == leftAB[i];
        }
      }
    }
  }

  // ---- checkout ----

  /** Metres all the garments together want from one roll. */
  function Wanted(garments: seq<Garment>, b: nat): int {
    if garments == [] then 0
    else
      var last := garments[|garments| - 1];
      Wanted(garments[..|garments| - 1], b) + if last.roll == Some(b) then last.meters else 0
  }

  /** The roll is sold in this store and stays above its minimum once everything wanted is held. */
  predicate CanSupply(batches: seq<Batch>, store: nat, b: nat, wanted: int) {
    && b < |batches| && batches[b].store == store && batches[b].status.Available?
    && batches[b].current - batches[b].reserved - wanted >= batches[b].minUsable
    && batches[b].current - batches[b].reserved - wanted >= 0
  }

  predicate AllSupplied(batches: seq<Batch>, store: nat, garments: seq<Garment>) {
    forall i :: 0 <= i < |garments| && garments[i].roll.Some? ==>
      CanSupply(batches, store, garments[i].roll.value, Wanted(garments, garments[i].roll.value))
  }

  lemma {:induction false} WantedIsNonNegative(garments: seq<Garment>, b: nat)
    requires YieldsPositive(garments)
    ensures Wanted(garments, b) >= 0
  {
    if garments != [] {
      WantedIsNonNegative(garments[..|garments| - 1], b);
    }
  }

  /** Checkout's one-at-a-time loop succeeds exactly when each roll can supply the sum of what is
      wanted from it, and then each roll's reserved quantity has grown by that sum. */
  lemma {:induction false} ReserveLoopExactlyWhen(s: Tables, store: nat, garments: seq<Garment>)
    requires Kept(s) && YieldsPositive(garments)
    ensures var r := ReserveAll(s, store, garments);
            && (r.Done? <==> AllSupplied(s.batches, store, garments))
            && (r.Done? ==>
                  && r.tables.log == s.log && |r.tables.batches| == |s.batches|
                  && forall b :: 0 <= b < |s.batches| ==>
                       r.tables.batches[b]
                       == s.batches[b].(reserved := s.batches[b].reserved + Wanted(garments, b)))
    decreases |garments|
  {
    if garments != [] {
      var front, g := garments[..|garments| - 1], garments[|garments| - 1];
      ReserveLoopExactlyWhen(s, store, front);
      SupplySplits(s.batches, store, garments);
      if AllSupplied(s.batches, store, front) && g.roll.Some? {
        LastReservation(s, store, garments);
      }
    }
  }

  /** Supplying all is supplying all but the last and then the last one's roll. */
  lemma SupplySplits(batches: seq<Batch>, store: nat, garments: seq<Garment>)
    requires garments != [] && YieldsPositive(garments)
    ensures var front, g := garments[..|garments| - 1], garments[|garments| - 1];
            AllSupplied(batches, store, garments) <==>
              && AllSupplied(batches, store, front)
              && (g.roll.Some? ==> CanSupply(batches, store, g.roll.value, Wanted(garments, g.roll.value)))
  {
    var front, g := garments[..|garments| - 1], garments[|garments| - 1];
    forall i | 0 <= i < |front| && front[i].roll.Some?
      ensures garments[i] == front[i]
      ensures AllSupplied(batches, store, garments) ==>
                CanSupply(batches, store, front[i].roll.value, Wanted(front, front[i].roll.value))
      ensures AllSupplied(batches, store, front) && front[i].roll != g.roll ==>
                CanSupply(batches, store, garments[i].roll.value, Wanted(garments, garments[i].roll.value))
    {
      assert garments[i] == front[i];
    }
  }

  lemma LastReservation(s: Tables, store: nat, garments: seq<Garment>)
    requires garments != [] && YieldsPositive(garments) && garments[|garments| - 1].roll.Some?
    requires Kept(s)
    requires ReserveAll(s, store, garments[..|garments| - 1]).Done?
    requires var t := ReserveAll(s, store, garments[..|garments| - 1]).tables;
             && t.log == s.log && |t.batches| == |s.batches|
             && forall b :: 0 <= b < |s.batches| ==>
                  t.batches[b] == s.batches[b].(reserved := s.batches[b].reserved
                                                            + Wanted(garments[..|garments| - 1], b))
    ensures var r := ReserveAll(s, store, garments);
            var b := garments[|garments| - 1].roll.value;
            && (r.Done? <==> CanSupply(s.batches, store, b, Wanted(garments, b)))
            && (r.Done? ==>
                  && r.tables.log == s.log && |r.tables.batches| == |s.batches|
                  && forall c :: 0 <= c < |s.batches| ==>
                       r.tables.batches[c]
                       == s.batches[c].(reserved := s.batches[c].reserved + Wanted(garments, c)))
  {
    var g := garments[|garments| - 1];
    var b := g.roll.value;
    if b < |s.batches| {
      assert RowFits(s, b);
      WantedIsNonNegative(garments, b);
    }
  }

  lemma {:induction false} WantedOfPermutation(xs: seq<Garment>, ys: seq<Garment>, b: nat)
    requires multiset(xs) == multiset(ys)
    ensures Wanted(xs, b) == Wanted(ys, b)
  {
    if xs == [] {
      assert |multiset(ys)| == 0;
    } else {
      var front, last := xs[..|xs| - 1], xs[|xs| - 1];
      assert xs == front + [last];
      assert last in multiset(ys);
      var k :| 0 <= k < |ys| && ys[k] == last;
      var rest := ys[..k] + ys[k + 1..];
      assert ys == ys[..k] + [last] + ys[k + 1..];
      assert multiset(front) == multiset(xs) - multiset{last};
      assert multiset(rest) == multiset(ys) - multiset{last};
      WantedOfPermutation(front, rest, b);
      WantedConcat(ys[..k], ys[k + 1..], b);
      WantedConcat(ys[..k] + [last], ys[k + 1..], b);
      assert (ys[..k] + [last])[..k] == ys[..k];
    }
  }

  lemma {:induction false} WantedConcat(xs: seq<Garment>, ys: seq<Garment>, b: nat)
    ensures Wanted(xs + ys, b) == Wanted(xs, b) + Wanted(ys, b)
  {
    if ys == [] {
      assert xs + ys == xs;
    } else {
      WantedConcat(xs, ys[..|ys| - 1], b);
      assert (xs + ys)[..|xs + ys| - 1] == xs + ys[..|ys| - 1];
    }
  }

  /** Neither the outcome of a checkout nor the rolls it leaves depend on the order of its items. */
  lemma CheckoutIgnoresItemOrder(s: Tables, store: nat, xs: seq<Garment>, ys: seq<Garment>)
    requires Kept(s) && YieldsPositive(xs) && YieldsPositive(ys) && multiset(xs) == multiset(ys)
    ensures ReserveAll(s, store, xs).Done? <==> ReserveAll(s, store, ys).Done?
    ensures ReserveAll(s, store, xs).Done? ==>
              ReserveAll(s, store, xs).tables.batches == ReserveAll(s, store, ys).tables.batches
  {
    ReserveLoopExactlyWhen(s, store, xs);
    ReserveLoopExactlyWhen(s, store, ys);
    forall b: nat
      ensures Wanted(xs, b) == Wanted(ys, b)
    {
      WantedOfPermutation(xs, ys, b);
    }
    SameSupply(s.batches, store, xs, ys);
    SameSupply(s.batches, store, ys, xs);
  }

  lemma SameSupply(batches: seq<Batch>, store: nat, xs: seq<Garment>, ys: seq<Garment>)
    requires multiset(xs) == multiset(ys)
    requires forall b: nat :: Wanted(xs, b) == Wanted(ys, b)
    ensures AllSupplied(batches, store, xs) ==> AllSupplied(batches, store, ys)
  {
    forall i | 0 <= i < |ys| && ys[i].roll.Some? && AllSupplied(batches, store, xs)
      ensures CanSupply(batches, store, ys[i].roll.value, Wanted(ys, ys[i].roll.value))
    {
      assert ys[i] in multiset(xs);
      var k :| 0 <= k < |xs| && xs[k] == ys[i];
    }
  }
}
