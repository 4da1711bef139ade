/** Production tickets and the fabric they cut. */
module Workshop {
  import opened Basics
  import opened Stock
  import opened StockOps
  import opened StockTheorems
  import opened StockEffects

  // `workshop.service.ts` over the stock tables. `moveTicket` is two transactions, the cut and the station
  // update; between them the process may crash and any other request may run, including another move of
  // the same ticket.

  datatype Station = Queued | Cutting | Stitching | Quality | Ready

  const STATION_ORDER: seq<Station> := [Queued, Cutting, Stitching, Quality, Ready]

  function Index(s: Station): (i: nat)
    ensures i < |STATION_ORDER| && STATION_ORDER[i] == s
  {
    match s
    case Queued => 0
    case Cutting => 1
    case Stitching => 2
    case Quality => 3
    case Ready => 4
  }

  /** One row of the ticket's history. */
  datatype Passage = Passage(from: Station, to: Station)

  datatype Ticket = Ticket(item: nat, station: Station, history: seq<Passage>)

  /** A move whose first transaction is done and whose second is not. */
  datatype Pending = Pending(ticket: nat, passage: Passage)

  /** `items` counts the order items created so far, so items below it exist. */
  datatype Floor = Floor(stock: Tables, items: nat, tickets: seq<Ticket>, moving: seq<Pending>)

  const EMPTY: Floor := Floor(Tables([], [], []), 0, [], [])

  /** A garment at checkout before its order item exists. */
  datatype Wish = Wish(roll: Option<nat>, meters: int)

  datatype Op =
    | OnStock(op: StockTheorems.Op)                 // anything but a checkout or a cut
    | Checkout(store: nat, wishes: seq<Wish>)
    | OpenTicket(item: nat)
    | BeginMove(ticket: nat, to: Station)           // read, check, and cut when leaving cutting
    | FinishMove(k: nat)                            // the second transaction of a pending move
    | Crash(k: nat)                                 // the second transaction never runs

  function Garments(wishes: seq<Wish>, firstItem: nat): (garments: seq<Garment>)
    ensures |garments| == |wishes|
    ensures forall i :: 0 <= i < |garments| ==>
              garments[i] == Garment(firstItem + i, wishes[i].roll, wishes[i].meters)
  {
    seq(|wishes|, i requires 0 <= i < |wishes| => Garment(firstItem + i, wishes[i].roll, wishes[i].meters))
  }

  function Without<T>(xs: seq<T>, k: nat): seq<T>
    requires k < |xs|
  {
    xs[..k] + xs[k + 1..]
  }

  predicate HasTicket(f: Floor, item: nat) {
    exists t :: 0 <= t < |f.tickets| && f.tickets[t].item == item
  }

  function CutFor(s: Tables, item: nat): Tables
    requires HoldsPlaced(s)
  {
    Committed(ConsumeForItem(s, item), s)
  }

  function Step(f: Floor, stores: set<nat>, op: Op): Floor
    requires HoldsPlaced(f.stock)
  {
    match op
    case OnStock(inner) =>
      if inner.OpCheckout? || inner.OpCut? then f else f.(stock := Apply(f.stock, stores, inner))
    case Checkout(store, wishes) =>
      var garments := Garments(wishes, f.items);
      if YieldsPositive(garments) && ReserveAll(f.stock, store, garments).Done? then
        f.(stock := ReserveAll(f.stock, store, garments).tables, items := f.items + |wishes|)
      else f
    case OpenTicket(item) =>
      if item < f.items && !HasTicket(f, item) then f.(tickets := f.tickets + [Ticket(item, Queued, [])]) else f
    case BeginMove(t, to) =>
      if t >= |f.tickets| then f
      else
        var from := f.tickets[t].station;
        if from == to || Index(to) > Index(from) + 1 then f
        else
          var leavingCutting := from.Cutting? && Index(to) > Index(from);
          f.(stock := if leavingCutting then CutFor(f.stock, f.tickets[t].item) else f.stock,
             moving := f.moving + [Pending(t, Passage(from, to))])
    case FinishMove(k) =>
      if k >= |f.moving| || f.moving[k].ticket >= |f.tickets| then f
      else
        var p := f.moving[k];
        var ticket := f.tickets[p.ticket];
        f.(tickets := f.tickets[p.ticket := Ticket(ticket.item, p.passage.to, ticket.history + [p.passage])],
           moving := Without(f.moving, k))
    case Crash(k) =>
      if k >= |f.moving| then f else f.(moving := Without(f.moving, k))
  }

  // ---- the invariant ----

  predicate NothingOpen(s: Tables, item: nat) {
    forall h :: 0 <= h < |s.holds| && s.holds[h].item == item ==> !s.holds[h].status.Open?
  }

  /** Every boundary below this position has been crossed forward. */
  predicate CrossedUpTo(history: seq<Passage>, position: nat) {
    forall b: nat :: b < position ==> Crosses(history, b)
  }

  predicate Crosses(history: seq<Passage>, boundary: nat) {
    exists i :: 0 <= i < |history| && Index(history[i].from) == boundary && Index(history[i].to) == boundary + 1
  }

  predicate TicketFits(f: Floor, t: nat)
    requires t < |f.tickets|
  {
    && f.tickets[t].item < f.items
    && (Index(f.tickets[t].station) >= 2 ==> NothingOpen(f.stock, f.tickets[t].item))
    && CrossedUpTo(f.tickets[t].history, Index(f.tickets[t].station))
  }

  predicate PendingFits(f: Floor, p: Pending) {
    && p.ticket < |f.tickets|
    && Index(p.passage.to) <= Index(p.passage.from) + 1
    && (Index(p.passage.to) >= 2 ==> NothingOpen(f.stock, f.tickets[p.ticket].item))
    && CrossedUpTo(f.tickets[p.ticket].history, Index(p.passage.from))
  }

  ghost predicate FloorFits(f: Floor) {
    && Kept(f.stock)
    && (forall h :: 0 <= h < |f.stock.holds| ==> f.stock.holds[h].item < f.items)
    && (forall t :: 0 <= t < |f.tickets| ==> TicketFits(f, t))
    && (forall k :: 0 <= k < |f.moving| ==> PendingFits(f, f.moving[k]))
  }

  /** Reservations are never forgotten, rewritten or reopened: an open one may be closed, a closed
      one stays as it is. */
  predicate HoldsOnlyClose(before: seq<Hold>, after: seq<Hold>) {
    && |before| <= |after|
    && forall h :: 0 <= h < |before| ==>
         if before[h].status.Open? then after[h].(status := Open) == before[h] else after[h] == before[h]
  }

  /** Reservations appended by a step belong to items that did not exist before it. */
  predicate NewHoldsForNewItems(before: Floor, after: Floor) {
    && before.items <= after.items
    && forall h :: |before.stock.holds| <= h < |after.stock.holds| ==>
         before.items <= after.stock.holds[h].item < after.items
  }

  // ---- one step ----

  lemma StockOpLeavesHolds(s: Tables, stores: set<nat>, op: StockTheorems.Op)
    requires Kept(s) && !op.OpCheckout? && !op.OpCut?
    ensures Kept(Apply(s, stores, op))
    ensures HoldsOnlyClose(s.holds, Apply(s, stores, op).holds)
    ensures |Apply(s, stores, op).holds| == |s.holds|
  {
    StepKeeps(s, stores, op);
    match op {
      case OpCreateOrder(store, fabrics) =>
        if CreateOrder(s, store, fabrics).Done? {
          CreateOrderKeeps(s, store, fabrics);
        }
      case OpRelease(items) => ReleaseForOrderSucceeds(s, items);
      case OpTransfer(b, dest, quantity) =>
        FoundIsThere(s.batches, dest, "");
      case _ =>
    }
  }

  lemma {:induction false} CheckoutAppendsHolds(s: Tables, store: nat, garments: seq<Garment>)
    requires ReserveAll(s, store, garments).Done?
    ensures var after := ReserveAll(s, store, garments).tables.holds;
            && s.holds <= after
            && forall h :: |s.holds| <= h < |after| ==>
                 exists i :: 0 <= i < |garments| && after[h].item == garments[i].item
    decreases |garments|
  {
    if garments != [] {
      var front, g := garments[..|garments| - 1], garments[|garments| - 1];
      CheckoutAppendsHolds(s, store, front);
      var mid := ReserveAll(s, store, front).tables.holds;
      var after := ReserveAll(s, store, garments).tables.holds;
      forall h | |s.holds| <= h < |after|
        ensures exists i :: 0 <= i < |garments| && after[h].item == garments[i].item
      {
        if h < |mid| {
          var i :| 0 <= i < |front| && mid[h].item == front[i].item;
          assert after[h].item == garments[i].item;
        } else {
          assert after[h].item == garments[|garments| - 1].item;
        }
      }
    }
  }

  lemma CutClosesItem(s: Tables, item: nat)
    requires Kept(s)
    ensures var after := CutFor(s, item);
            && Kept(after) && |after.holds| == |s.holds| && HoldsOnlyClose(s.holds, after.holds)
            && NothingOpen(after, item)
  {
    ConsumeForItemSucceeds(s, item);
  }

  lemma CheckoutStep(f: Floor, stores: set<nat>, store: nat, wishes: seq<Wish>)
    requires Kept(f.stock)
    ensures var after := Step(f, stores, Checkout(store, wishes));
            Kept(after.stock) && HoldsOnlyClose(f.stock.holds, after.stock.holds) && NewHoldsForNewItems(f, after)
  {
    var garments := Garments(wishes, f.items);
    if YieldsPositive(garments) && ReserveAll(f.stock, store, garments).Done? {
      ReserveAllKeeps(f.stock, store, garments);
      CheckoutAppendsHolds(f.stock, store, garments);
    }
  }

  lemma StockStep(f: Floor, stores: set<nat>, op: Op)
    requires Kept(f.stock)
    ensures var after := Step(f, stores, op);
            Kept(after.stock) && HoldsOnlyClose(f.stock.holds, after.stock.holds) && NewHoldsForNewItems(f, after)
  {
    hide Sound, TransfersCancel, Apply, ReserveAll, CutFor, NothingOpen;
    match op {
      case OnStock(inner) =>
        if !inner.OpCheckout? && !inner.OpCut? {
          StockOpLeavesHolds(f.stock, stores, inner);
        }
      case Checkout(store, wishes) => CheckoutStep(f, stores, store, wishes);
      case BeginMove(t, to) =>
        if t < |f.tickets| {
          CutClosesItem(f.stock, f.tickets[t].item);
        }
      case _ =>
    }
  }

  /** An item with nothing open, once it exists, never has anything open again. */
  lemma NothingReopens(before: Floor, after: Floor, item: nat)
    requires HoldsOnlyClose(before.stock.holds, after.stock.holds) && NewHoldsForNewItems(before, after)
    requires item < before.items && NothingOpen(before.stock, item)
    ensures NothingOpen(after.stock, item)
  {
  }

  lemma CrossingGrows(history: seq<Passage>, p: Passage)
    requires Index(p.to) <= Index(p.from) + 1 && CrossedUpTo(history, Index(p.from))
    ensures CrossedUpTo(history + [p], Index(p.to))
    ensures forall b: nat :: Crosses(history, b) ==> Crosses(history + [p], b)
  {
    forall b: nat | Crosses(history, b)
      ensures Crosses(history + [p], b)
    {
      var i :| 0 <= i < |history| && Index(history[i].from) == b && Index(history[i].to) == b + 1;
      assert (history + [p])[i] == history[i];
    }
    assert (history + [p])[|history|] == p;
  }

  lemma StepFits(f: Floor, stores: set<nat>, op: Op)
    requires FloorFits(f)
    ensures FloorFits(Step(f, stores, op))
  {
    var after := Step(f, stores, op);
    StockStep(f, stores, op);
    forall t | 0 <= t < |f.tickets|
      ensures Index(f.tickets[t].station) >= 2 ==> NothingOpen(after.stock, f.tickets[t].item)
      ensures NothingOpen(f.stock, f.tickets[t].item) ==> NothingOpen(after.stock, f.tickets[t].item)
    {
      assert TicketFits(f, t);
      if NothingOpen(f.stock, f.tickets[t].item) {
        NothingReopens(f, after, f.tickets[t].item);
      }
    }
    match op {
      case BeginMove(t, to) => MoveBegun(f, stores, t, to);
      case FinishMove(k) => MoveFinished(f, stores, k);
      case Crash(k) => MoveLost(f, stores, k);
      case _ =>
        forall t | 0 <= t < |after.tickets|
          ensures TicketFits(after, t)
        {
          if t < |f.tickets| {
            assert TicketFits(f, t);
          }
        }
        forall k | 0 <= k < |after.moving|
          ensures PendingFits(after, after.moving[k])
        {
          assert PendingFits(f, f.moving[k]);
        }
    }
  }

  lemma StockChanges(f: Floor, stock: Tables)
    requires FloorFits(f) && Kept(stock) && HoldsOnlyClose(f.stock.holds, stock.holds)
    requires |stock.holds| == |f.stock.holds|
    ensures FloorFits(f.(stock := stock))
  {
    var after := f.(stock := stock);
    forall t | 0 <= t < |after.tickets|
      ensures TicketFits(after, t)
    {
      assert TicketFits(f, t);
    }
    forall k | 0 <= k < |after.moving|
      ensures PendingFits(after, after.moving[k])
    {
      assert PendingFits(f, f.moving[k]);
    }
  }

  lemma PendingJoins(f: Floor, p: Pending)
    requires FloorFits(f) && PendingFits(f, p)
    ensures FloorFits(f.(moving := f.moving + [p]))
  {
    var after := f.(moving := f.moving + [p]);
    forall t | 0 <= t < |after.tickets|
      ensures TicketFits(after, t)
    {
      assert TicketFits(f, t);
    }
    forall k | 0 <= k < |after.moving|
      ensures PendingFits(after, after.moving[k])
    {
      if k < |f.moving| {
        assert PendingFits(f, f.moving[k]);
      }
    }
  }

  lemma MoveBegun(f: Floor, stores: set<nat>, t: nat, to: Station)
    requires FloorFits(f)
    ensures FloorFits(Step(f, stores, BeginMove(t, to)))
  {
    if t < |f.tickets| {
      var from, item := f.tickets[t].station, f.tickets[t].item;
      if from != to && Index(to) <= Index(from) + 1 {
        CutClosesItem(f.stock, item);
        var stock := if from.Cutting? && Index(to) > Index(from) then CutFor(f.stock, item) else f.stock;
        StockChanges(f, stock);
        var cut := f.(stock := stock);
        assert TicketFits(cut, t);
        PendingJoins(cut, Pending(t, Passage(from, to)));
      }
    }
  }

  lemma MoveFinished(f: Floor, stores: set<nat>, k: nat)
    requires FloorFits(f)
    ensures FloorFits(Step(f, stores, FinishMove(k)))
  {
    var after := Step(f, stores, FinishMove(k));
    if k < |f.moving| {
      var p := f.moving[k];
      assert PendingFits(f, p);
      CrossingGrows(f.tickets[p.ticket].history, p.passage);
      forall t | 0 <= t < |after.tickets|
        ensures TicketFits(after, t)
      {
        assert TicketFits(f, t);
      }
      forall j | 0 <= j < |after.moving|
        ensures PendingFits(after, after.moving[j])
      {
        assert PendingFits(f, f.moving[if j < k then j else j + 1]);
      }
    }
  }

  lemma MoveLost(f: Floor, stores: set<nat>, k: nat)
    requires FloorFits(f)
    ensures FloorFits(Step(f, stores, Crash(k)))
  {
    var after := Step(f, stores, Crash(k));
    forall t | 0 <= t < |after.tickets|
      ensures TicketFits(after, t)
    {
      assert TicketFits(f, t);
    }
    forall j | 0 <= j < |after.moving|
      ensures PendingFits(after, after.moving[j])
    {
      if k < |f.moving| {
        assert PendingFits(f, f.moving[if j < k then j else j + 1]);
      } else {
        assert PendingFits(f, f.moving[j]);
      }
    }
  }

  // ---- whole runs ----

  ghost predicate Reached(trace: seq<Floor>, ops: seq<Op>, stores: set<nat>) {
    && |trace| == |ops| + 1 && trace[0] == EMPTY
    && forall i :: 0 <= i < |ops| ==> HoldsPlaced(trace[i].stock) && trace[i + 1] == Step(trace[i], stores, ops[i])
  }

  lemma {:induction false} RunFits(trace: seq<Floor>, ops: seq<Op>, stores: set<nat>, i: nat)
    requires Reached(trace, ops, stores) && i < |trace|
    ensures FloorFits(trace[i])
  {
    if i > 0 {
      RunFits(trace, ops, stores, i - 1);
      StepFits(trace[i - 1], stores, ops[i - 1]);
    }
  }

  lemma {:induction false} CrossedByName(history: seq<Passage>, from: Station, to: Station)
    requires Crosses(history, Index(from)) && Index(to) == Index(from) + 1
    ensures Passage(from, to) in history
  {
    var i :| 0 <= i < |history| && Index(history[i].from) == Index(from) && Index(history[i].to) == Index(from) + 1;
    assert history[i] == Passage(from, to);
  }

  /** In every reachable state, in-flight moves included: a ticket at stitching or beyond has nothing
      left to cut, each roll gave the cutting station exactly its consumed reservations, and a ticket
      that is ready crossed every station boundary forward. */
  lemma CutExactlyOnce(trace: seq<Floor>, ops: seq<Op>, stores: set<nat>, t: nat)
    requires Reached(trace, ops, stores) && t < |trace[|ops|].tickets|
    ensures var f := trace[|ops|];
            var ticket := f.tickets[t];
            && (ticket.station in {Stitching, Quality, Ready} ==> NothingOpen(f.stock, ticket.item))
            && (ticket.station == Ready ==>
                  && Passage(Queued, Cutting) in ticket.history && Passage(Cutting, Stitching) in ticket.history
                  && Passage(Stitching, Quality) in ticket.history && Passage(Quality, Ready) in ticket.history)
            && forall b :: 0 <= b < |f.stock.batches| ==>
                 CutFrom(f.stock.log, b) == HeldOn(f.stock.holds, b, Consumed)
  {
    var f := trace[|ops|];
    RunFits(trace, ops, stores, |ops|);
    assert TicketFits(f, t);
    if f.tickets[t].station == Ready {
      CrossedByName(f.tickets[t].history, Queued, Cutting);
      CrossedByName(f.tickets[t].history, Cutting, Stitching);
      CrossedByName(f.tickets[t].history, Stitching, Quality);
      CrossedByName(f.tickets[t].history, Quality, Ready);
    }
    forall b | 0 <= b < |f.stock.batches|
      ensures CutFrom(f.stock.log, b) == HeldOn(f.stock.holds, b, Consumed)
    {
      assert RowFits(f.stock, b);
    }
  }

  /** Over any stretch of a run a reservation is closed at most once and never changes otherwise. So the
      metres the cutting station took off the rolls for an item are those of its consumed reservations
      and never more than its checkout reserved, a promise that does not change afterwards. */
  lemma {:induction false} ReservationsCloseOnce(trace: seq<Floor>, ops: seq<Op>, stores: set<nat>, i: nat, j: nat)
    requires Reached(trace, ops, stores) && i <= j < |trace|
    ensures HoldsOnlyClose(trace[i].stock.holds, trace[j].stock.holds)
    ensures NewHoldsForNewItems(trace[i], trace[j])
    ensures forall item :: 0 <= item < trace[i].items ==>
              && DeductedFor(trace[j].stock.log, item) == ConsumedFor(trace[j].stock.holds, item)
              && DeductedFor(trace[j].stock.log, item) <= PromisedTo(trace[i].stock.holds, item)
              && PromisedTo(trace[j].stock.holds, item) == PromisedTo(trace[i].stock.holds, item)
  {
    hide Step, RowFits, LogFits, TransfersCancel;
    if i < j {
      ReservationsCloseOnce(trace, ops, stores, i, j - 1);
      RunFits(trace, ops, stores, j - 1);
      StockStep(trace[j - 1], stores, ops[j - 1]);
    }
    RunFits(trace, ops, stores, j);
    forall item | 0 <= item < trace[i].items
      ensures DeductedFor(trace[j].stock.log, item) == ConsumedFor(trace[j].stock.holds, item)
      ensures ConsumedFor(trace[j].stock.holds, item) <= PromisedTo(trace[j].stock.holds, item)
      ensures PromisedTo(trace[j].stock.holds, item) == PromisedTo(trace[i].stock.holds, item)
    {
      assert ItemFits(trace[j].stock, item);
      CutWithinPromise(trace[j].stock.holds, item);
      PromiseIsFixed(trace[i].stock.holds, trace[j].stock.holds, item);
    }
  }

  /** Metres its checkout reserved for an item. */
  function PromisedTo(holds: seq<Hold>, item: nat): int {
    if holds == [] then 0
    else
      var last := holds[|holds| - 1];
      PromisedTo(holds[..|holds| - 1], item) + if last.item == item then last.meters else 0
  }

  lemma {:induction false} CutWithinPromise(holds: seq<Hold>, item: nat)
    requires forall h :: 0 <= h < |holds| ==> holds[h].meters > 0
    ensures 0 <= ConsumedFor(holds, item) <= PromisedTo(holds, item)
  {
    if holds != [] {
      CutWithinPromise(holds[..|holds| - 1], item);
    }
  }

  lemma {:induction false} PromiseIsFixed(before: seq<Hold>, after: seq<Hold>, item: nat)
    requires HoldsOnlyClose(before, after)
    requires forall h :: |before| <= h < |after| ==> after[h].item != item
    ensures PromisedTo(after, item) == PromisedTo(before, item)
    decreases |after|
  {
    if |after| > |before| {
      PromiseIsFixed(before, after[..|after| - 1], item);
    } else if before != [] {
      PromiseIsFixed(before[..|before| - 1], after[..|after| - 1], item);
      assert after[|after| - 1].(status := Open) == before[|before| - 1].(status := Open);
    }
  }

  // ---- whose fabric ----

  function MetresOf(wish: Wish): int {
    if wish.roll.Some? then wish.meters else 0
  }

  lemma {:induction false} NothingPromised(holds: seq<Hold>, item: nat)
    requires forall h :: 0 <= h < |holds| ==> holds[h].item != item
    ensures PromisedTo(holds, item) == 0
  {
    if holds != [] {
      NothingPromised(holds[..|holds| - 1], item);
    }
  }

  lemma {:induction false} HoldsForWishes(holds: seq<Hold>, wishes: seq<Wish>, first: nat, i: nat)
    ensures PromisedTo(holds + HoldsFor(Garments(wishes, first)), first + i)
         == PromisedTo(holds, first + i) + if i < |wishes| then MetresOf(wishes[i]) else 0
  {
    if wishes == [] {
      assert Garments(wishes, first) == [] && holds + [] == holds;
    } else {
      var n := |wishes| - 1;
      var garments := Garments(wishes, first);
      var front := holds + HoldsFor(Garments(wishes[..n], first));
      HoldsForWishes(holds, wishes[..n], first, i);
      assert garments[..n] == Garments(wishes[..n], first);
      if wishes[n].roll.Some? {
        var hold := Hold(wishes[n].roll.value, first + n, wishes[n].meters, Open);
        assert holds + HoldsFor(garments) == front + [hold];
        assert (front + [hold])[..|front|] == front;
      } else {
        assert holds + HoldsFor(garments) == front;
      }
    }
  }

  /** After an accepted checkout every new order item has reserved exactly the metres of its own garment,
      and none where the customer brings the fabric. */
  lemma {:induction false} CheckoutPromises(f: Floor, stores: set<nat>, store: nat, wishes: seq<Wish>, i: nat)
    requires FloorFits(f) && i < |wishes|
    requires Step(f, stores, Checkout(store, wishes)).items == f.items + |wishes|
    ensures var after := Step(f, stores, Checkout(store, wishes));
            && after.stock.holds == f.stock.holds + HoldsFor(Garments(wishes, f.items))
            && PromisedTo(after.stock.holds, f.items + i) == MetresOf(wishes[i])
  {
    hide LogFits, RowFits, ItemFits, TicketFits, PendingFits, ReserveAll, PromisedTo, HoldsFor;
    CheckoutPlacesItsHolds(f.stock, store, Garments(wishes, f.items));
    HoldsForWishes(f.stock.holds, wishes, f.items, i);
    NothingPromised(f.stock.holds, f.items + i);
  }

  lemma {:induction false} EveryWishIsPromised(f: Floor, stores: set<nat>, store: nat, wishes: seq<Wish>)
    requires FloorFits(f) && Step(f, stores, Checkout(store, wishes)).items == f.items + |wishes|
    ensures var holds := Step(f, stores, Checkout(store, wishes)).stock.holds;
            forall i :: 0 <= i < |wishes| ==> PromisedTo(holds, f.items + i) == MetresOf(wishes[i])
  {
    hide LogFits, RowFits, ItemFits, TicketFits, PendingFits, Step, PromisedTo, MetresOf;
    forall i | 0 <= i < |wishes|
      ensures PromisedTo(Step(f, stores, Checkout(store, wishes)).stock.holds, f.items + i) == MetresOf(wishes[i])
    {
      CheckoutPromises(f, stores, store, wishes, i);
    }
  }

  /** Over the rest of every run that promise stands, and no more is ever cut for the item. */
  lemma {:induction false} EachItemGetsItsOwnFabric(trace: seq<Floor>, ops: seq<Op>, stores: set<nat>,
                                                    k: nat, i: nat, j: nat)
    requires Reached(trace, ops, stores) && k < j <= |ops| && ops[k].Checkout? && i < |ops[k].wishes|
    requires trace[k + 1].items == trace[k].items + |ops[k].wishes|
    ensures var item, metres := trace[k].items + i, MetresOf(ops[k].wishes[i]);
            && PromisedTo(trace[j].stock.holds, item) == metres
            && DeductedFor(trace[j].stock.log, item) <= metres
  {
    hide FloorFits, Step;
    RunFits(trace, ops, stores, k);
    CheckoutPromises(trace[k], stores, ops[k].store, ops[k].wishes, i);
    ReservationsCloseOnce(trace, ops, stores, k + 1, j);
  }

  lemma {:induction false} ConsumedAfterCut(before: seq<Hold>, after: seq<Hold>, item: nat, other: nat)
    requires |after| == |before|
    requires forall h :: 0 <= h < |before| ==>
               after[h] == if before[h].item == item && before[h].status == Open
                           then before[h].(status := Consumed) else before[h]
    ensures ConsumedFor(after, other)
         == ConsumedFor(before, other) + if other == item then OpenMeters(before, item) else 0
  {
    if before != [] {
      var n := |before| - 1;
      ConsumedAfterCut(before[..n], after[..n], item, other);
    }
  }

  /** A cut takes off the rolls exactly what is reserved for the item, and nothing for any other. */
  lemma {:induction false} CutTakesItsOwn(s: Tables, item: nat, other: nat)
    requires Kept(s)
    ensures DeductedFor(CutFor(s, item).log, other)
         == DeductedFor(s.log, other) + if other == item then OpenMeters(s.holds, item) else 0
  {
    ConsumeForItemSucceeds(s, item);
    hide LogFits, RowFits, ConsumeForItem, DeductedFor, ConsumedFor;
    ConsumedAfterCut(s.holds, CutFor(s, item).holds, item, other);
    assert ItemFits(s, other) && ItemFits(CutFor(s, item), other);
  }

  /** No two tickets are for one garment. */
  predicate OneTicketEach(tickets: seq<Ticket>) {
    forall t, u :: 0 <= t < u < |tickets| ==> tickets[t].item != tickets[u].item
  }

  lemma {:induction false} EveryRunHasOneTicketEach(trace: seq<Floor>, ops: seq<Op>, stores: set<nat>)
    requires Reached(trace, ops, stores)
    ensures OneTicketEach(trace[|ops|].tickets)
  {
    if ops != [] {
      var n := |ops| - 1;
      hide Apply, ReserveAll, CutFor;
      EveryRunHasOneTicketEach(trace[..n + 1], ops[..n], stores);
    }
  }
}
