/** The stock services as methods that change the tables in place. */
module StockRoomService {
  import opened Basics
  import opened Stock
  import opened StockOps
  import opened StockTheorems
  import opened StockEffects
  import Fifo

  datatype Answer<+T> = Ok(value: T) | Failed(why: Why)

  function AnswerOf<T>(r: Result<T>): Answer<T> {
    match r
    case Done(_, value) => Ok(value)
    case Rejected(why) => Failed(why)
  }

  function Prepend(takes: seq<Take>, r: Result<seq<Take>>): Result<seq<Take>> {
    match r
    case Done(t, more) => Done(t, takes + more)
    case Rejected(why) => Rejected(why)
  }

  lemma PrependNothing(r: Result<seq<Take>>)
    ensures Prepend([], r) == r
  {
    if r.Done? {
      assert [] + r.value == r.value;
    }
  }

  lemma DrainOneRow(s: Tables, rows: seq<nat>, need: int, consumed: seq<Take>)
    requires need > 0 && rows != [] && forall i :: 0 <= i < |rows| ==> rows[i] < |s.batches|
    ensures var take := Min(need, s.batches[rows[0]].current);
            var whole := Prepend(consumed, DrainRows(s, rows, need));
            match Draw(s, rows[0], take)
            case None => whole == Rejected(CheckViolated)
            case Some(t) => whole == Prepend(consumed + [Take(rows[0], take)], DrainRows(t, rows[1..], need - take))
  {
    var take := Min(need, s.batches[rows[0]].current);
    if Draw(s, rows[0], take).Some? {
      var rest := DrainRows(Draw(s, rows[0], take).value, rows[1..], need - take);
      if rest.Done? {
        assert consumed + ([Take(rows[0], take)] + rest.value) == consumed + [Take(rows[0], take)] + rest.value;
      }
    }
  }

  /** Short of fabric exactly when the store holds less of it than asked; otherwise, if at all, the
      oldest rolls go first and what is asked leaves. */
  ghost predicate FifoAnswered(before: seq<Batch>, after: seq<Batch>, store: nat, fabric: string, quantity: int,
                               answer: Answer<seq<Take>>)
  {
    && (answer == Failed(Insufficient) <==> Stocked(before, store, fabric) < quantity)
    && (answer.Ok? ==>
          OldestFirst(before, after, store, fabric) && OnHand(before) - OnHand(after) == quantity)
  }

  /** Accepted exactly when each roll can give all that is allocated from it, which it then loses. */
  predicate ChoiceAnswered(before: seq<Batch>, after: seq<Batch>, store: nat, allocations: seq<Take>,
                           answer: Answer<seq<Take>>)
  {
    && (answer.Ok? <==> AllDrawable(before, store, allocations))
    && (answer.Ok? ==>
          && answer.value == allocations && |after| == |before|
          && forall b :: 0 <= b < |before| ==> after[b] == DrawnBy(before[b], TakenFrom(allocations, b)))
  }

  lemma {:induction false} FifoIsAnswered(s: Tables, store: nat, fabric: string, quantity: nat)
    requires Kept(s)
    ensures var r := FifoConsume(s, store, fabric, quantity);
            FifoAnswered(s.batches, Committed(r, s).batches, store, fabric, quantity, AnswerOf(r))
  {
    hide Kept, FifoConsume;
    FifoIsOldestFirst(s, store, fabric, quantity);
  }

  lemma {:induction false} ExplicitNext(s: Tables, store: nat, allocations: seq<Take>, i: nat)
    requires i < |allocations| && ConsumeExplicit(s, store, allocations[..i]).Done?
    ensures var r := ConsumeExplicit(s, store, allocations[..i]);
            ConsumeExplicit(s, store, allocations[..i + 1]) == NextAllocation(r.tables, r.value, store, allocations[i])
  {
    assert allocations[..i + 1][..i] == allocations[..i];
  }

  lemma {:induction false} ChoiceIsAnswered(s: Tables, store: nat, allocations: seq<Take>)
    requires Kept(s)
    ensures var r := ConsumeExplicit(s, store, allocations);
            ChoiceAnswered(s.batches, Committed(r, s).batches, store, allocations, AnswerOf(r))
  {
    hide Kept, ConsumeExplicit;
    ExplicitExactlyWhen(s, store, allocations);
  }

  lemma {:induction false} CheckoutIsAnswered(s: Tables, store: nat, garments: seq<Garment>)
    requires Kept(s) && YieldsPositive(garments)
    ensures var r := ReserveAll(s, store, garments);
            && (AnswerOf(r).Ok? <==> AllSupplied(s.batches, store, garments))
            && (r.Done? ==> r.tables.holds == s.holds + HoldsFor(garments))
  {
    hide Kept, ReserveAll, AllSupplied, HoldsFor;
    ReserveLoopExactlyWhen(s, store, garments);
    if ReserveAll(s, store, garments).Done? {
      CheckoutPlacesItsHolds(s, store, garments);
    }
  }

  lemma {:induction false} CheckoutStarts(s: Tables, store: nat, garments: seq<Garment>)
    ensures ReserveAll(s, store, garments[..0]) == Done(s, ())
  {
  }

  /** What the next garment adds to the loop. */
  lemma {:induction false} CheckoutStep(s: Tables, store: nat, garments: seq<Garment>, i: nat, t: Tables)
    requires i < |garments| && ReserveAll(s, store, garments[..i]) == Done(t, ())
    ensures ReserveAll(s, store, garments[..i + 1])
         == if garments[i].roll.None? then Done(t, ())
            else StockOps.Reserve(t, store, garments[i].item, garments[i].roll.value, garments[i].meters)
  {
    assert garments[..i + 1][..i] == garments[..i];
  }

  /** A method that fails restores the tables it began with, as its transaction does. */
  class StockRoom {
    var batches: seq<Batch>
    var log: seq<Movement>
    var holds: seq<Hold>

    ghost function View(): Tables
      reads this
    {
      Tables(batches, log, holds)
    }

    constructor ()
      ensures View() == Tables([], [], []) && Kept(View())
    {
      batches, log, holds := [], [], [];
    }

    /** One row update with its movement; the CHECK constraints decide. */
    method Write(b: nat, kind: Kind, quantity: int, next: int, status: Status) returns (ok: bool)
      requires b < |batches|
      modifies this`batches, this`log
      ensures ok == Move(old(View()), b, kind, quantity, next, status).Some?
      ensures View() == if ok then Move(old(View()), b, kind, quantity, next, status).value else old(View())
    {
      var row := batches[b].(current := next, status := status);
      var m := Movement(b, kind, quantity, batches[b].current, next, None);
      ok := RowChecked(row) && MovementChecked(m);
      if ok {
        batches, log := batches[b := row], log + [m];
      }
    }

    /** A new row with its first movement. */
    method Insert(row: Batch, kind: Kind, quantity: int) returns (ok: bool)
      modifies this`batches, this`log
      ensures ok == Receive(old(View()), row, kind, quantity).Some?
      ensures View() == if ok then Receive(old(View()), row, kind, quantity).value else old(View())
    {
      var m := Movement(|batches|, kind, quantity, 0, quantity, None);
      ok := RowChecked(row) && MovementChecked(m);
      if ok {
        batches, log := batches + [row], log + [m];
      }
    }

    method CreateBatch(store: nat, fabric: string, code: string, quantity: int, bought: int)
      returns (answer: Answer<nat>)
      requires Kept(View())
      modifies this
      ensures Kept(View())
      ensures answer == AnswerOf(StockOps.CreateBatch(old(View()), store, fabric, code, quantity, bought))
      ensures View() == Committed(StockOps.CreateBatch(old(View()), store, fabric, code, quantity, bought), old(View()))
      ensures answer.Ok? <==> quantity > 0 && forall b :: 0 <= b < |old(batches)| ==>
                                old(batches)[b].store != store || old(batches)[b].code != code
      ensures answer.Ok? ==>
                batches == old(batches) + [Batch(store, fabric, code, quantity, 0, 350, bought, Available)]
    {
      ghost var before := View();
      CreateBatchExactlyWhen(before, store, fabric, code, quantity, bought);
      if FindBatch(batches, store, code).Some? {
        return Failed(DuplicateCode);
      }
      var id := |batches|;
      var ok := Insert(Batch(store, fabric, code, quantity, 0, DEFAULT_MIN_USABLE, bought, Available),
                       PurchaseIn, quantity);
      if !ok {
        return Failed(CheckViolated);
      }
      CreateBatchKeeps(before, store, fabric, code, quantity, bought);
      return Ok(id);
    }

    method AdjustBatch(store: nat, b: nat, delta: int) returns (answer: Answer<()>)
      requires Kept(View())
      modifies this
      ensures Kept(View())
      ensures answer == AnswerOf(StockOps.AdjustBatch(old(View()), store, b, delta))
      ensures View() == Committed(StockOps.AdjustBatch(old(View()), store, b, delta), old(View()))
      ensures answer.Ok? <==> delta != 0 && b < |old(batches)| && old(batches)[b].store == store
                              && old(batches)[b].current + delta >= old(batches)[b].reserved
      ensures answer.Ok? ==> LengthChanged(old(View()), View(), b, delta)
    {
      hide Kept, LengthChanged, Move;
      ghost var before := View();
      AdjustBatchExactlyWhen(before, store, b, delta);
      if delta == 0 {
        return Failed(ZeroDelta);
      }
      if b >= |batches| || batches[b].store != store {
        return Failed(NotFound);
      }
      var next := batches[b].current + delta;
      if next < 0 {
        return Failed(WouldBeNegative);
      }
      var ok := Write(b, Adjustment, Abs(delta), next, if next == 0 then Depleted else Available);
      if !ok {
        return Failed(CheckViolated);
      }
      AdjustBatchKeeps(before, store, b, delta);
      return Ok(());
    }

    method Transfer(stores: set<nat>, src: nat, dest: nat, quantity: int) returns (answer: Answer<nat>)
      requires Kept(View())
      modifies this
      ensures Kept(View())
      ensures answer == AnswerOf(StockOps.Transfer(old(View()), stores, src, dest, quantity))
      ensures View() == Committed(StockOps.Transfer(old(View()), stores, src, dest, quantity), old(View()))
      ensures answer.Ok? ==> Transferred(old(View()), View(), src, dest, answer.value, quantity)
    {
      hide Kept, Transferred;
      ghost var before := View();
      var rows, moves := batches, log;
      if src >= |batches| || dest !in stores {
        return Failed(NotFound);
      }
      var source := batches[src];
      if dest == source.store {
        return Failed(SameStore);
      }
      if source.current < quantity {
        return Failed(Insufficient);
      }
      var next := source.current - quantity;
      var ok := Write(src, TransferOut, quantity, next, StatusAfterDraw(source, next));
      if !ok {
        return Failed(CheckViolated);
      }
      var destination := |batches|;
      FoundIsThere(batches, dest, source.code);
      match FindBatch(batches, dest, source.code) {
        case Some(b) =>
          destination := b;
          ok := Write(b, Kind.TransferIn, quantity, batches[b].current + quantity, Available);
        case None =>
          ok := Insert(Batch(dest, source.fabric, source.code, quantity, 0, DEFAULT_MIN_USABLE,
                             source.bought, Available), Kind.TransferIn, quantity);
      }
      if !ok {
        batches, log := rows, moves;
        return Failed(CheckViolated);
      }
      TransferKeeps(before, stores, src, dest, quantity);
      TransferExactlyWhen(before, stores, src, dest, quantity);
      return Ok(destination);
    }

    /** The greedy drain over the locked rows. */
    method Drain(rows: seq<nat>, quantity: int) returns (ok: bool, consumed: seq<Take>)
      requires forall i :: 0 <= i < |rows| ==> rows[i] < |batches|
      modifies this`batches, this`log
      ensures DrainRows(old(View()), rows, quantity) == if ok then Done(View(), consumed) else Rejected(CheckViolated)
    {
      ghost var before := View();
      consumed := [];
      var remaining := quantity;
      var i := 0;
      assert rows[0..] == rows;
      PrependNothing(DrainRows(before, rows, quantity));
      while i < |rows|
        invariant 0 <= i <= |rows| && |batches| == |before.batches|
        invariant DrainRows(before, rows, quantity) == Prepend(consumed, DrainRows(View(), rows[i..], remaining))
      {
        if remaining <= 0 {
          break;
        }
        var b := rows[i];
        var take := Min(remaining, batches[b].current);
        var next := batches[b].current - take;
        DrainOneRow(View(), rows[i..], remaining, consumed);
        assert rows[i..][0] == b && rows[i..][1..] == rows[i + 1..];
        ok := Write(b, OrderOut, take, next, StatusAfterDraw(batches[b], next));
        if !ok {
          return;
        }
        consumed := consumed + [Take(b, take)];
        remaining := remaining - take;
        i := i + 1;
      }
      assert DrainRows(View(), rows[i..], remaining) == Done(View(), []);
      assert consumed + [] == consumed;
      ok := true;
    }

    /** Locks the fabric's rolls oldest first, checks the total, then drains them. */
    method ConsumeFifo(store: nat, fabric: string, quantity: int) returns (answer: Answer<seq<Take>>)
      requires Kept(View())
      modifies this
      ensures Kept(View())
      ensures answer == AnswerOf(FifoConsume(old(View()), store, fabric, quantity))
      ensures View() == Committed(FifoConsume(old(View()), store, fabric, quantity), old(View()))
      ensures quantity >= 0 ==> FifoAnswered(old(batches), batches, store, fabric, quantity, answer)
    {
      hide FifoAnswered;
      ghost var before := View();
      if quantity >= 0 {
        FifoIsAnswered(before, store, fabric, quantity);
      }
      var firstBatches, firstLog := batches, log;
      var rows := FifoRows(batches, store, fabric);
      EligibleRows(batches, store, fabric);
      if Fifo.Total(Balances(batches, rows)) < quantity {
        return Failed(Insufficient);
      }
      var ok, consumed := Drain(rows, quantity);
      if !ok {
        batches, log := firstBatches, firstLog;
        return Failed(CheckViolated);
      }
      DrainRowsKeeps(before, rows, quantity);
      return Ok(consumed);
    }

    method ConsumeChosen(store: nat, allocations: seq<Take>) returns (answer: Answer<seq<Take>>)
      requires Kept(View())
      modifies this
      ensures Kept(View())
      ensures answer == AnswerOf(ConsumeExplicit(old(View()), store, allocations))
      ensures View() == Committed(ConsumeExplicit(old(View()), store, allocations), old(View()))
      ensures ChoiceAnswered(old(batches), batches, store, allocations, answer)
    {
      ghost var before := View();
      assert ConsumeExplicit(before, store, allocations[..0]) == Done(before, []);
      hide ChoiceAnswered, ConsumeExplicit, NextAllocation, Kept;
      ChoiceIsAnswered(before, store, allocations);
      var firstBatches, firstLog := batches, log;
      var results: seq<Take> := [];
      for i := 0 to |allocations|
        invariant holds == before.holds
        invariant ConsumeExplicit(before, store, allocations[..i]) == Done(View(), results)
      {
        ExplicitNext(before, store, allocations, i);
        var refusal := TakeChosen(store, allocations[i], results);
        if refusal.Some? {
          RefusalSticks(before, store, allocations, i + 1);
          batches, log := firstBatches, firstLog;
          return Failed(refusal.value);
        }
        results := results + [allocations[i]];
      }
      assert allocations[..|allocations|] == allocations;
      ConsumeExplicitKeeps(before, store, allocations);
      return Ok(results);
    }

    /** One allocation, drawn or refused. */
    method TakeChosen(store: nat, a: Take, ghost results: seq<Take>) returns (refusal: Option<Why>)
      modifies this`batches, this`log
      ensures NextAllocation(old(View()), results, store, a)
           == if refusal.None? then Done(View(), results + [a]) else Rejected(refusal.value)
    {
      if a.batch >= |batches| || batches[a.batch].store != store || !batches[a.batch].status.Available? {
        return Some(NotFound);
      }
      if batches[a.batch].current < a.quantity {
        return Some(Insufficient);
      }
      var next := batches[a.batch].current - a.quantity;
      var ok := Write(a.batch, OrderOut, a.quantity, next, StatusAfterDraw(batches[a.batch], next));
      return if ok then None else Some(CheckViolated);
    }

    /** The fabrics of a new order, drawn one after the other in one transaction. */
    method CreateOrder(store: nat, fabrics: seq<Fabric>) returns (answer: Answer<()>)
      requires Kept(View())
      modifies this
      ensures Kept(View())
      ensures answer == AnswerOf(StockOps.CreateOrder(old(View()), store, fabrics))
      ensures View() == Committed(StockOps.CreateOrder(old(View()), store, fabrics), old(View()))
      ensures answer.Ok? ==>
                OnlyLost(old(batches), batches, store)
                && OnHand(batches) == OnHand(old(batches)) - Requested(fabrics)
    {
      hide Kept, OnlyLost, OnHand, Requested, FifoAnswered, ChoiceAnswered;
      ghost var before := View();
      var firstBatches, firstLog, firstHolds := batches, log, holds;
      for i := 0 to |fabrics|
        invariant Kept(View()) && StockOps.CreateOrder(before, store, fabrics[..i]) == Done(View(), ())
      {
        assert fabrics[..i + 1][..i] == fabrics[..i];
        var drawn: Answer<seq<Take>>;
        match fabrics[i] {
          case Oldest(fabric, quantity) => drawn := ConsumeFifo(store, fabric, quantity);
          case Chosen(allocations) => drawn := ConsumeChosen(store, allocations);
        }
        if drawn.Failed? {
          OrderRefusalSticks(before, store, fabrics, i + 1);
          batches, log, holds := firstBatches, firstLog, firstHolds;
          return Failed(drawn.why);
        }
      }
      assert fabrics[..|fabrics|] == fabrics;
      OrderDrawsExactly(before, store, fabrics);
      return Ok(());
    }

    method Reserve(store: nat, item: nat, b: nat, meters: int) returns (answer: Answer<()>)
      requires Kept(View()) && meters > 0
      modifies this
      ensures Kept(View())
      ensures answer == AnswerOf(StockOps.Reserve(old(View()), store, item, b, meters))
      ensures View() == Committed(StockOps.Reserve(old(View()), store, item, b, meters), old(View()))
    {
      ghost var before := View();
      if b >= |batches| || batches[b].store != store || !batches[b].status.Available? {
        return Failed(NotFound);
      }
      if !CanCutFrom(batches[b], meters) {
        return Failed(BelowMinimum);
      }
      var row := batches[b].(reserved := batches[b].reserved + meters);
      if !RowChecked(row) {
        return Failed(CheckViolated);
      }
      batches := batches[b := row];
      holds := holds + [Hold(b, item, meters, Open)];
      PlaceHoldKeeps(before, b, item, meters);
      return Ok(());
    }

    /** The reserve loop of a checkout: a failure on one garment releases those before it. */
    method Checkout(store: nat, garments: seq<Garment>) returns (answer: Answer<()>)
      requires Kept(View()) && YieldsPositive(garments)
      modifies this
      ensures Kept(View())
      ensures answer == AnswerOf(ReserveAll(old(View()), store, garments))
      ensures View() == Committed(ReserveAll(old(View()), store, garments), old(View()))
      ensures holds == if answer.Ok? then old(holds) + HoldsFor(garments) else old(holds)
      ensures answer.Ok? <==> AllSupplied(old(batches), store, garments)
    {
      hide HoldsFor, AllSupplied, ReserveAll, Kept;
      ghost var before := View();
      CheckoutIsAnswered(before, store, garments);
      CheckoutStarts(before, store, garments);
      var firstBatches, firstLog, firstHolds := batches, log, holds;
      for i := 0 to |garments|
        invariant Kept(View()) && ReserveAll(before, store, garments[..i]) == Done(View(), ())
      {
        CheckoutStep(before, store, garments, i, View());
        if garments[i].roll.Some? {
          var held := Reserve(store, garments[i].item, garments[i].roll.value, garments[i].meters);
          if held.Failed? {
            CheckoutRefusalSticks(before, store, garments, i + 1);
            batches, log, holds := firstBatches, firstLog, firstHolds;
            return held;
          }
        }
      }
      assert garments[..|garments|] == garments;
      return Ok(());
    }

    /** One reservation leaves its roll. */
    method Cut(h: nat)
      requires Kept(View()) && h < |holds| && holds[h].status.Open?
      modifies this
      ensures CutHold(old(View()), h) == Some(View()) && Kept(View())
    {
      ghost var before := View();
      CutAllSucceeds(before, [h]);
      CutHoldSucceeds(before, h);
      assert [h][..0] == [];
      var hold := holds[h];
      var b := hold.batch;
      var previous := batches[b].current;
      var next := previous - hold.meters;
      var unclamped := batches[b].reserved - hold.meters;
      batches := batches[b := batches[b].(current := next,
                                          reserved := if unclamped > 0 then unclamped else 0,
                                          status := if next == 0 then Depleted else batches[b].status)];
      log := log + [Movement(b, OrderOut, hold.meters, previous, next, Some(hold.item))];
      holds := holds[h := hold.(status := Consumed)];
      assert CutAll(before, [h]).tables == View();
    }

    /** One reservation returns to its roll. */
    method Release(h: nat)
      requires Kept(View()) && h < |holds| && holds[h].status.Open?
      modifies this`batches, this`holds
      ensures ReleaseHold(old(View()), h) == Some(View()) && Kept(View())
    {
      ReleaseHoldSucceeds(View(), h);
      var hold := holds[h];
      batches := batches[hold.batch := batches[hold.batch].(reserved := batches[hold.batch].reserved - hold.meters)];
      holds := holds[h := hold.(status := Released)];
    }

    /** The cutting station: every open reservation of the item leaves its roll. */
    method ConsumeForOrderItem(item: nat) returns (answer: Answer<nat>)
      requires Kept(View())
      modifies this
      ensures Kept(View())
      ensures answer == AnswerOf(ConsumeForItem(old(View()), item)) && answer.Ok?
      ensures View() == ConsumeForItem(old(View()), item).tables
    {
      hide Kept, CutAll, CutHold;
      ghost var before := View();
      KeptPlacesHolds(before);
      var ids := OpenHolds(holds, {item});
      ConsumeForItemSucceeds(before, item);
      CutProgress(before, ids, 0);
      for i := 0 to |ids|
        invariant |holds| == |before.holds|
        invariant CutAll(before, ids[..i]) == Done(View(), i)
      {
        CutProgress(before, ids, i);
        Cut(ids[i]);
        CutOneMore(before, ids, i);
      }
      CutProgress(before, ids, |ids|);
      assert ids[..|ids|] == ids;
      return Ok(|ids|);
    }

    /** A cancelled order: its open reservations go back to the sellable pool. */
    method ReleaseForOrder(items: set<nat>) returns (answer: Answer<nat>)
      requires Kept(View())
      modifies this
      ensures Kept(View())
      ensures answer == AnswerOf(StockOps.ReleaseForOrder(old(View()), items)) && answer.Ok?
      ensures View() == StockOps.ReleaseForOrder(old(View()), items).tables
      ensures log == old(log)
    {
      hide Kept, ReleaseAll, ReleaseHold;
      ghost var before := View();
      KeptPlacesHolds(before);
      var ids := OpenHolds(holds, items);
      ReleaseForOrderSucceeds(before, items);
      ReleaseProgress(before, ids, 0);
      for i := 0 to |ids|
        invariant |holds| == |before.holds| && log == before.log
        invariant ReleaseAll(before, ids[..i]) == Done(View(), i)
      {
        ReleaseProgress(before, ids, i);
        Release(ids[i]);
        ReleaseOneMore(before, ids, i);
      }
      ReleaseProgress(before, ids, |ids|);
      assert ids[..|ids|] == ids;
      return Ok(|ids|);
    }
  }

  // ---- the reservation loops, one row at a time ----

  lemma {:induction false} KeptPlacesHolds(s: Tables)
    requires Kept(s)
    ensures HoldsPlaced(s)
  {
  }

  predicate OpenAndDistinct(holds: seq<Hold>, ids: seq<nat>) {
    && (forall k :: 0 <= k < |ids| ==> ids[k] < |holds| && holds[ids[k]].status.Open?)
    && (forall j, k :: 0 <= j < k < |ids| ==> ids[j] != ids[k])
  }

  lemma {:induction false} CutProgress(before: Tables, ids: seq<nat>, i: nat)
    requires Kept(before) && OpenAndDistinct(before.holds, ids) && i <= |ids|
    ensures CutAll(before, ids[..i]).Done? && CutAll(before, ids[..i]).value == i
    ensures i == 0 ==> CutAll(before, ids[..i]).tables == before
    ensures var t := CutAll(before, ids[..i]).tables;
            Kept(t) && |t.holds| == |before.holds|
            && forall k :: i <= k < |ids| ==> t.holds[ids[k]].status.Open?
  {
    hide RowFits, LogFits, TransfersCancel;
    CutAllSucceeds(before, ids[..i]);
  }

  lemma {:induction false} CutOneMore(before: Tables, ids: seq<nat>, i: nat)
    requires Kept(before) && OpenAndDistinct(before.holds, ids) && i < |ids|
    requires CutAll(before, ids[..i]).Done? && CutHold(CutAll(before, ids[..i]).tables, ids[i]).Some?
    ensures CutAll(before, ids[..i + 1])
         == Done(CutHold(CutAll(before, ids[..i]).tables, ids[i]).value, CutAll(before, ids[..i]).value + 1)
  {
    hide RowFits, LogFits, TransfersCancel;
    assert ids[..i + 1][..i] == ids[..i];
  }

  lemma {:induction false} ReleaseProgress(before: Tables, ids: seq<nat>, i: nat)
    requires Kept(before) && OpenAndDistinct(before.holds, ids) && i <= |ids|
    ensures ReleaseAll(before, ids[..i]).Done? && ReleaseAll(before, ids[..i]).value == i
    ensures i == 0 ==> ReleaseAll(before, ids[..i]).tables == before
    ensures var t := ReleaseAll(before, ids[..i]).tables;
            Kept(t) && |t.holds| == |before.holds|
            && forall k :: i <= k < |ids| ==> t.holds[ids[k]].status.Open?
  {
    hide RowFits, LogFits, TransfersCancel;
    ReleaseAllSucceeds(before, ids[..i]);
  }

  lemma {:induction false} ReleaseOneMore(before: Tables, ids: seq<nat>, i: nat)
    requires Kept(before) && OpenAndDistinct(before.holds, ids) && i < |ids|
    requires ReleaseAll(before, ids[..i]).Done? && ReleaseHold(ReleaseAll(before, ids[..i]).tables, ids[i]).Some?
    ensures ReleaseAll(before, ids[..i + 1])
         == Done(ReleaseHold(ReleaseAll(before, ids[..i]).tables, ids[i]).value, ReleaseAll(before, ids[..i]).value + 1)
  {
    hide RowFits, LogFits, TransfersCancel;
    assert ids[..i + 1][..i] == ids[..i];
  }

  // ---- a loop refused part way is refused as a whole ----

  lemma {:induction false} RefusalSticks(s: Tables, store: nat, allocations: seq<Take>, n: nat)
    requires n <= |allocations| && ConsumeExplicit(s, store, allocations[..n]).Rejected?
    ensures ConsumeExplicit(s, store, allocations) == ConsumeExplicit(s, store, allocations[..n])
    decreases |allocations|
  {
    if n == |allocations| {
      assert allocations[..n] == allocations;
    } else {
      var front := allocations[..|allocations| - 1];
      assert front[..n] == allocations[..n];
      RefusalSticks(s, store, front, n);
    }
  }

  lemma {:induction false} OrderRefusalSticks(s: Tables, store: nat, fabrics: seq<Fabric>, n: nat)
    requires n <= |fabrics| && StockOps.CreateOrder(s, store, fabrics[..n]).Rejected?
    ensures StockOps.CreateOrder(s, store, fabrics) == StockOps.CreateOrder(s, store, fabrics[..n])
    decreases |fabrics|
  {
    if n == |fabrics| {
      assert fabrics[..n] == fabrics;
    } else {
      var front := fabrics[..|fabrics| - 1];
      assert front[..n] == fabrics[..n];
      OrderRefusalSticks(s, store, front, n);
    }
  }

  lemma {:induction false} CheckoutRefusalSticks(s: Tables, store: nat, garments: seq<Garment>, n: nat)
    requires n <= |garments| && ReserveAll(s, store, garments[..n]).Rejected?
    ensures ReserveAll(s, store, garments) == ReserveAll(s, store, garments[..n])
    decreases |garments|
  {
    if n == |garments| {
      assert garments[..n] == garments;
    } else {
      var front := garments[..|garments| - 1];
      assert front[..n] == garments[..n];
      CheckoutRefusalSticks(s, store, front, n);
    }
  }
}
