/** What each stock service does to the tables, as functions. */
module StockOps {
  import opened Basics
  import opened Stock
  import Fifo

  // `inventory.service.ts`, `fifo.service.ts`, `reservation.service.ts`, `consumeExplicit` and the fabric
  // loop of `create` (`orders.service.ts`), and the reserve loop of `checkout` (`pos.service.ts`).

  datatype Why =
    | NotFound | SameStore | DuplicateCode | ZeroDelta
    | Insufficient | BelowMinimum | WouldBeNegative
    | CheckViolated   // a CHECK constraint aborts the transaction

  datatype Result<+T> = Done(tables: Tables, value: T) | Rejected(why: Why)

  const DEFAULT_MIN_USABLE: int := 350

  // ---- inventory.service.ts ----

  function FindBatch(batches: seq<Batch>, store: nat, code: string): Option<nat> {
    if batches == [] then None
    else if batches[|batches| - 1].store == store && batches[|batches| - 1].code == code then
      Some(|batches| - 1)
    else FindBatch(batches[..|batches| - 1], store, code)
  }

  lemma {:induction false} FoundIsThere(batches: seq<Batch>, store: nat, code: string)
    ensures var found := FindBatch(batches, store, code);
            found.Some? ==> found.value < |batches| && batches[found.value].store == store
                            && batches[found.value].code == code
    ensures FindBatch(batches, store, code).None? ==>
              forall b :: 0 <= b < |batches| ==> batches[b].store != store || batches[b].code != code
  {
    if batches != [] {
      FoundIsThere(batches[..|batches| - 1], store, code);
    }
  }

  function CreateBatch(s: Tables, store: nat, fabric: string, code: string, quantity: int, bought: int)
    : Result<nat>
  {
    if FindBatch(s.batches, store, code).Some? then Rejected(DuplicateCode)
    else
      var row := Batch(store, fabric, code, quantity, 0, DEFAULT_MIN_USABLE, bought, Available);
      match Receive(s, row, PurchaseIn, quantity)
      case None => Rejected(CheckViolated)
      case Some(t) => Done(t, |s.batches|)
  }

  function AdjustBatch(s: Tables, store: nat, b: nat, delta: int): Result<()> {
    if delta == 0 then Rejected(ZeroDelta)
    else if b >= |s.batches| || s.batches[b].store != store then Rejected(NotFound)
    else
      var next := s.batches[b].current + delta;
      if next < 0 then Rejected(WouldBeNegative)
      else
        match Move(s, b, Adjustment, Abs(delta), next, if next == 0 then Depleted else Available)
        case None => Rejected(CheckViolated)
        case Some(t) => Done(t, ())
  }

  function StatusAfterDraw(row: Batch, next: int): Status {
    if next == 0 then Depleted else row.status
  }

  /** The second half of a transfer: merge into the batch of the same code, or create it. */
  function TransferIn(s: Tables, source: Batch, dest: nat, quantity: int): Result<nat> {
    FoundIsThere(s.batches, dest, source.code);
    match FindBatch(s.batches, dest, source.code)
    case Some(b) =>
      (match Move(s, b, Kind.TransferIn, quantity, s.batches[b].current + quantity, Available)
       case None => Rejected(CheckViolated)
       case Some(t) => Done(t, b))
    case None =>
      var row := Batch(dest, source.fabric, source.code, quantity, 0, DEFAULT_MIN_USABLE, source.bought, Available);
      (match Receive(s, row, Kind.TransferIn, quantity)
       case None => Rejected(CheckViolated)
       case Some(t) => Done(t, |s.batches|))
  }

  function Transfer(s: Tables, stores: set<nat>, src: nat, dest: nat, quantity: int): Result<nat> {
    if src >= |s.batches| || dest !in stores then Rejected(NotFound)
    else
      var source := s.batches[src];
      if dest == source.store then Rejected(SameStore)
      else if source.current < quantity then Rejected(Insufficient)
      else
        var next := source.current - quantity;
        match Move(s, src, TransferOut, quantity, next, StatusAfterDraw(source, next))
        case None => Rejected(CheckViolated)
        case Some(t) => TransferIn(t, source, dest, quantity)
  }

  // ---- outgoing fabric for orders ----

  datatype Take = Take(batch: nat, quantity: int)

  function Draw(s: Tables, b: nat, quantity: int): Option<Tables>
    requires b < |s.batches|
  {
    var next := s.batches[b].current - quantity;
    Move(s, b, OrderOut, quantity, next, StatusAfterDraw(s.batches[b], next))
  }

  predicate Eligible(row: Batch, store: nat, fabric: string) {
    row.store == store && row.fabric == fabric && row.status.Available? && row.current > 0
  }

  /** ORDER BY purchase_date, created_at */
  predicate Older(batches: seq<Batch>, i: nat, j: nat)
    requires i < |batches| && j < |batches|
  {
    batches[i].bought < batches[j].bought || (batches[i].bought == batches[j].bought && i < j)
  }

  function InsertByAge(batches: seq<Batch>, rows: seq<nat>, b: nat): seq<nat>
    requires b < |batches| && forall i :: 0 <= i < |rows| ==> rows[i] < |batches|
  {
    if rows == [] || Older(batches, rows[|rows| - 1], b) then rows + [b]
    else InsertByAge(batches, rows[..|rows| - 1], b) + [rows[|rows| - 1]]
  }

  /** Oldest purchase first, and the one entered first among those of one day. */
  predicate InAgeOrder(batches: seq<Batch>, rows: seq<nat>) {
    && (forall i :: 0 <= i < |rows| ==> rows[i] < |batches|)
    && (forall i, j :: 0 <= i < j < |rows| ==>
          batches[rows[i]].bought < batches[rows[j]].bought
          || (batches[rows[i]].bought == batches[rows[j]].bought && rows[i] < rows[j]))
  }

  lemma {:induction false} InsertAdds(batches: seq<Batch>, rows: seq<nat>, b: nat)
    requires b < |batches| && forall i :: 0 <= i < |rows| ==> rows[i] < |batches|
    ensures forall r: nat :: r in InsertByAge(batches, rows, b) <==> r in rows || r == b
  {
    if rows != [] {
      var front, last := rows[..|rows| - 1], rows[|rows| - 1];
      assert rows == front + [last];
      InsertAdds(batches, front, b);
    }
  }

  lemma {:induction false} AppendInOrder(batches: seq<Batch>, rows: seq<nat>, b: nat)
    requires InAgeOrder(batches, rows) && b < |batches|
    requires forall r: nat :: r in rows ==> r < |batches| && Older(batches, r, b)
    ensures InAgeOrder(batches, rows + [b])
  {
    forall i | 0 <= i < |rows|
      ensures Older(batches, rows[i], b)
    {
      assert rows[i] in rows;
    }
  }

  lemma {:induction false} InsertKeepsOrder(batches: seq<Batch>, rows: seq<nat>, b: nat)
    requires b < |batches| && InAgeOrder(batches, rows) && b !in rows
    ensures InAgeOrder(batches, InsertByAge(batches, rows, b))
    ensures forall r: nat :: r in InsertByAge(batches, rows, b) <==> r in rows || r == b
  {
    InsertAdds(batches, rows, b);
    if rows == [] || Older(batches, rows[|rows| - 1], b) {
      AppendInOrder(batches, rows, b);
    } else {
      var front, last := rows[..|rows| - 1], rows[|rows| - 1];
      InsertKeepsOrder(batches, front, b);
      AppendInOrder(batches, InsertByAge(batches, front, b), last);
    }
  }

  /** The locked rows of a FIFO query, restricted to the first n batches. */
  function RowsAmong(batches: seq<Batch>, store: nat, fabric: string, n: nat): (rows: seq<nat>)
    requires n <= |batches|
    ensures InAgeOrder(batches, rows)
    ensures forall r: nat :: r in rows <==> r < n && Eligible(batches[r], store, fabric)
  {
    if n == 0 then []
    else
      var rows := RowsAmong(batches, store, fabric, n - 1);
      if Eligible(batches[n - 1], store, fabric) then
        InsertKeepsOrder(batches, rows, n - 1);
        InsertByAge(batches, rows, n - 1)
      else rows
  }

  function FifoRows(batches: seq<Batch>, store: nat, fabric: string): (rows: seq<nat>)
    ensures InAgeOrder(batches, rows)
    ensures forall r: nat :: r in rows <==> r < |batches| && Eligible(batches[r], store, fabric)
  {
    RowsAmong(batches, store, fabric, |batches|)
  }

  function Balances(batches: seq<Batch>, rows: seq<nat>): (balances: seq<nat>)
    requires forall i :: 0 <= i < |rows| ==> rows[i] < |batches| && batches[rows[i]].current >= 0
  {
    seq(|rows|, i requires 0 <= i < |rows| => batches[rows[i]].current)
  }

  function DrainRows(s: Tables, rows: seq<nat>, need: int): Result<seq<Take>>
    requires forall i :: 0 <= i < |rows| ==> rows[i] < |s.batches|
    decreases |rows|
  {
    if need <= 0 || rows == [] then Done(s, [])
    else
      var take := Min(need, s.batches[rows[0]].current);
      match Draw(s, rows[0], take)
      case None => Rejected(CheckViolated)
      case Some(t) =>
        (match DrainRows(t, rows[1..], need - take)
         case Rejected(why) => Rejected(why)
         case Done(u, takes) => Done(u, [Take(rows[0], take)] + takes))
  }

  function FifoConsume(s: Tables, store: nat, fabric: string, need: int): Result<seq<Take>> {
    var rows := FifoRows(s.batches, store, fabric);
    EligibleRows(s.batches, store, fabric);
    if Fifo.Total(Balances(s.batches, rows)) < need then Rejected(Insufficient)
    else DrainRows(s, rows, need)
  }

  lemma EligibleRows(batches: seq<Batch>, store: nat, fabric: string)
    ensures var rows := FifoRows(batches, store, fabric);
            forall i :: 0 <= i < |rows| ==>
              rows[i] < |batches| && Eligible(batches[rows[i]], store, fabric)
  {
    var rows := FifoRows(batches, store, fabric);
    forall i | 0 <= i < |rows|
      ensures rows[i] < |batches| && Eligible(batches[rows[i]], store, fabric)
    {
      assert rows[i] in rows;
    }
  }

  /** One allocation of the loop. */
  function NextAllocation(t: Tables, takes: seq<Take>, store: nat, a: Take): Result<seq<Take>> {
    if a.batch >= |t.batches| || t.batches[a.batch].store != store || !t.batches[a.batch].status.Available? then
      Rejected(NotFound)
    else if t.batches[a.batch].current < a.quantity then Rejected(Insufficient)
    else
      match Draw(t, a.batch, a.quantity)
      case None => Rejected(CheckViolated)
      case Some(u) => Done(u, takes + [a])
  }

  function ConsumeExplicit(s: Tables, store: nat, allocations: seq<Take>): Result<seq<Take>>
    decreases |allocations|
  {
    if allocations == [] then Done(s, [])
    else
      match ConsumeExplicit(s, store, allocations[..|allocations| - 1])
      case Rejected(why) => Rejected(why)
      case Done(t, takes) => NextAllocation(t, takes, store, allocations[|allocations| - 1])
  }

  datatype Fabric = Oldest(fabric: string, quantity: int) | Chosen(allocations: seq<Take>)

  /** The fabric loop of an order, inside its one transaction. */
  function CreateOrder(s: Tables, store: nat, fabrics: seq<Fabric>): Result<()>
    decreases |fabrics|
  {
    if fabrics == [] then Done(s, ())
    else
      match CreateOrder(s, store, fabrics[..|fabrics| - 1])
      case Rejected(why) => Rejected(why)
      case Done(t, _) =>
        var drawn := match fabrics[|fabrics| - 1]
          case Oldest(fabric, quantity) => FifoConsume(t, store, fabric, quantity)
          case Chosen(allocations) => ConsumeExplicit(t, store, allocations);
        match drawn
        case Rejected(why) => Rejected(why)
        case Done(u, _) => Done(u, ())
  }

  // ---- reservation.service.ts ----

  predicate CanCutFrom(row: Batch, required: int) {
    row.current - row.reserved - required >= row.minUsable
  }

  function Reserve(s: Tables, store: nat, item: nat, b: nat, meters: int): Result<()> {
    if b >= |s.batches| || s.batches[b].store != store || !s.batches[b].status.Available? then Rejected(NotFound)
    else if !CanCutFrom(s.batches[b], meters) then Rejected(BelowMinimum)
    else
      match PlaceHold(s, b, item, meters)
      case None => Rejected(CheckViolated)
      case Some(t) => Done(t, ())
  }

  /** Ids of the open reservations of these order items. */
  function OpenHolds(holds: seq<Hold>, items: set<nat>): (ids: seq<nat>)
    ensures forall k :: 0 <= k < |ids| ==>
              ids[k] < |holds| && holds[ids[k]].status.Open? && holds[ids[k]].item in items
    ensures forall j, k :: 0 <= j < k < |ids| ==> ids[j] != ids[k]
    ensures forall h :: 0 <= h < |holds| && holds[h].status.Open? && holds[h].item in items ==> h in ids
  {
    if holds == [] then []
    else
      var last := holds[|holds| - 1];
      OpenHolds(holds[..|holds| - 1], items)
      + if last.status.Open? && last.item in items then [|holds| - 1] else []
  }

  predicate HoldsPlaced(s: Tables) {
    forall h :: 0 <= h < |s.holds| ==> s.holds[h].batch < |s.batches|
  }

  function CutAll(s: Tables, ids: seq<nat>): (result: Result<nat>)
    requires HoldsPlaced(s) && forall k :: 0 <= k < |ids| ==> ids[k] < |s.holds|
    ensures result.Done? ==> HoldsPlaced(result.tables) && |result.tables.holds| == |s.holds|
  {
    if ids == [] then Done(s, 0)
    else
      match CutAll(s, ids[..|ids| - 1])
      case Rejected(why) => Rejected(why)
      case Done(t, n) =>
        match CutHold(t, ids[|ids| - 1])
        case None => Rejected(CheckViolated)
        case Some(u) => Done(u, n + 1)
  }

  function ReleaseAll(s: Tables, ids: seq<nat>): (result: Result<nat>)
    requires HoldsPlaced(s) && forall k :: 0 <= k < |ids| ==> ids[k] < |s.holds|
    ensures result.Done? ==> HoldsPlaced(result.tables) && |result.tables.holds| == |s.holds|
  {
    if ids == [] then Done(s, 0)
    else
      match ReleaseAll(s, ids[..|ids| - 1])
      case Rejected(why) => Rejected(why)
      case Done(t, n) =>
        match ReleaseHold(t, ids[|ids| - 1])
        case None => Rejected(CheckViolated)
        case Some(u) => Done(u, n + 1)
  }

  function ConsumeForItem(s: Tables, item: nat): Result<nat>
    requires HoldsPlaced(s)
  {
    CutAll(s, OpenHolds(s.holds, {item}))
  }

  function ReleaseForOrder(s: Tables, items: set<nat>): Result<nat>
    requires HoldsPlaced(s)
  {
    ReleaseAll(s, OpenHolds(s.holds, items))
  }

  /** One garment of a checkout: the roll is absent when the customer brings the fabric. */
  datatype Garment = Garment(item: nat, roll: Option<nat>, meters: int)

  /** The reserve loop of a checkout, inside its one transaction. */
  function ReserveAll(s: Tables, store: nat, garments: seq<Garment>): Result<()>
    decreases |garments|
  {
    if garments == [] then Done(s, ())
    else
      match ReserveAll(s, store, garments[..|garments| - 1])
      case Rejected(why) => Rejected(why)
      case Done(t, _) =>
        var g := garments[|garments| - 1];
        if g.roll.None? then Done(t, ()) else Reserve(t, store, g.item, g.roll.value, g.meters)
  }

  // ---- every service keeps the invariant ----

  ghost predicate Kept(s: Tables) {
    Sound(s) && TransfersCancel(s)
  }

  lemma MetresAfter(log: seq<Movement>, m: Movement)
    ensures forall k :: Metres(log + [m], k) == Metres(log, k) + if m.kind == k then m.quantity else 0
  {
    assert (log + [m])[..|log|] == log;
  }

  lemma CreateBatchKeeps(s: Tables, store: nat, fabric: string, code: string, quantity: int, bought: int)
    requires Kept(s) && CreateBatch(s, store, fabric, code, quantity, bought).Done?
    ensures Kept(CreateBatch(s, store, fabric, code, quantity, bought).tables)
  {
    var row := Batch(store, fabric, code, quantity, 0, DEFAULT_MIN_USABLE, bought, Available);
    ReceiveKeeps(s, row, PurchaseIn, quantity);
    MetresAfter(s.log, Movement(|s.batches|, PurchaseIn, quantity, 0, quantity, None));
  }

  lemma AdjustBatchKeeps(s: Tables, store: nat, b: nat, delta: int)
    requires Kept(s) && AdjustBatch(s, store, b, delta).Done?
    ensures Kept(AdjustBatch(s, store, b, delta).tables)
  {
    var next := s.batches[b].current + delta;
    MoveKeeps(s, b, Adjustment, Abs(delta), next, if next == 0 then Depleted else Available);
    MetresAfter(s.log, Movement(b, Adjustment, Abs(delta), s.batches[b].current, next, None));
  }

  lemma TransferKeeps(s: Tables, stores: set<nat>, src: nat, dest: nat, quantity: int)
    requires Kept(s) && Transfer(s, stores, src, dest, quantity).Done?
    ensures Kept(Transfer(s, stores, src, dest, quantity).tables)
  {
    hide LogFits, RowFits, Metres;
    var source := s.batches[src];
    var next := source.current - quantity;
    MoveKeeps(s, src, TransferOut, quantity, next, StatusAfterDraw(source, next));
    var t := Move(s, src, TransferOut, quantity, next, StatusAfterDraw(source, next)).value;
    MetresAfter(s.log, Movement(src, TransferOut, quantity, source.current, next, None));
    FoundIsThere(t.batches, dest, source.code);
    match FindBatch(t.batches, dest, source.code) {
      case Some(b) =>
        MoveKeeps(t, b, Kind.TransferIn, quantity, t.batches[b].current + quantity, Available);
        MetresAfter(t.log, Movement(b, Kind.TransferIn, quantity, t.batches[b].current,
                                    t.batches[b].current + quantity, None));
      case None =>
        var row := Batch(dest, source.fabric, source.code, quantity, 0, DEFAULT_MIN_USABLE, source.bought, Available);
        ReceiveKeeps(t, row, Kind.TransferIn, quantity);
        MetresAfter(t.log, Movement(|t.batches|, Kind.TransferIn, quantity, 0, quantity, None));
    }
  }

  lemma DrawKeeps(s: Tables, b: nat, quantity: int)
    requires Kept(s) && b < |s.batches| && Draw(s, b, quantity).Some?
    ensures Kept(Draw(s, b, quantity).value)
    ensures |Draw(s, b, quantity).value.batches| == |s.batches| && Draw(s, b, quantity).value.holds == s.holds
  {
    var next := s.batches[b].current - quantity;
    MoveKeeps(s, b, OrderOut, quantity, next, StatusAfterDraw(s.batches[b], next));
    MetresAfter(s.log, Movement(b, OrderOut, quantity, s.batches[b].current, next, None));
  }

  lemma {:induction false} DrainRowsKeeps(s: Tables, rows: seq<nat>, need: int)
    requires Kept(s) && (forall i :: 0 <= i < |rows| ==> rows[i] < |s.batches|)
    requires DrainRows(s, rows, need).Done?
    ensures Kept(DrainRows(s, rows, need).tables) && DrainRows(s, rows, need).tables.holds == s.holds
    decreases |rows|
  {
    if need > 0 && rows != [] {
      var take := Min(need, s.batches[rows[0]].current);
      DrawKeeps(s, rows[0], take);
      DrainRowsKeeps(Draw(s, rows[0], take).value, rows[1..], need - take);
    }
  }

  lemma {:induction false} ConsumeExplicitKeeps(s: Tables, store: nat, allocations: seq<Take>)
    requires Kept(s) && ConsumeExplicit(s, store, allocations).Done?
    ensures var t := ConsumeExplicit(s, store, allocations).tables; Kept(t) && t.holds == s.holds
    decreases |allocations|
  {
    if allocations != [] {
      var front, a := allocations[..|allocations| - 1], allocations[|allocations| - 1];
      ConsumeExplicitKeeps(s, store, front);
      DrawKeeps(ConsumeExplicit(s, store, front).tables, a.batch, a.quantity);
    }
  }

  lemma {:induction false} CreateOrderKeeps(s: Tables, store: nat, fabrics: seq<Fabric>)
    requires Kept(s) && CreateOrder(s, store, fabrics).Done?
    ensures var t := CreateOrder(s, store, fabrics).tables; Kept(t) && t.holds == s.holds
    decreases |fabrics|
  {
    if fabrics != [] {
      var front := fabrics[..|fabrics| - 1];
      CreateOrderKeeps(s, store, front);
      var t := CreateOrder(s, store, front).tables;
      match fabrics[|fabrics| - 1] {
        case Oldest(fabric, quantity) =>
          EligibleRows(t.batches, store, fabric);
          DrainRowsKeeps(t, FifoRows(t.batches, store, fabric), quantity);
        case Chosen(allocations) =>
          ConsumeExplicitKeeps(t, store, allocations);
      }
    }
  }

  lemma {:induction false} ReserveAllKeeps(s: Tables, store: nat, garments: seq<Garment>)
    requires Kept(s) && ReserveAll(s, store, garments).Done?
    requires forall i :: 0 <= i < |garments| ==> garments[i].meters > 0
    ensures Kept(ReserveAll(s, store, garments).tables)
    ensures ReserveAll(s, store, garments).tables.log == s.log
    decreases |garments|
  {
    if garments != [] {
      var front, g := garments[..|garments| - 1], garments[|garments| - 1];
      ReserveAllKeeps(s, store, front);
      if g.roll.Some? {
        PlaceHoldKeeps(ReserveAll(s, store, front).tables, g.roll.value, g.item, g.meters);
      }
    }
  }

  /** A cut of any open reservations goes through, closes exactly those and touches no other. */
  lemma {:induction false} CutAllSucceeds(s: Tables, ids: seq<nat>)
    requires Kept(s)
    requires forall k :: 0 <= k < |ids| ==> ids[k] < |s.holds| && s.holds[ids[k]].status.Open?
    requires forall j, k :: 0 <= j < k < |ids| ==> ids[j] != ids[k]
    ensures CutAll(s, ids).Done? && CutAll(s, ids).value == |ids| && Kept(CutAll(s, ids).tables)
    ensures var after := CutAll(s, ids).tables.holds;
            |after| == |s.holds| && forall h :: 0 <= h < |s.holds| ==>
              after[h] == if h in ids then s.holds[h].(status := Consumed) else s.holds[h]
  {
    if ids != [] {
      var front, h := ids[..|ids| - 1], ids[|ids| - 1];
      CutAllSucceeds(s, front);
      var t := CutAll(s, front).tables;
      assert h !in front;
      CutHoldSucceeds(t, h);
      var b := t.holds[h].batch;
      MetresAfter(t.log, Movement(b, OrderOut, t.holds[h].meters, t.batches[b].current,
                                  t.batches[b].current - t.holds[h].meters, Some(t.holds[h].item)));
      assert forall x :: x in ids <==> x in front || x == h;
    }
  }

  lemma {:induction false} ReleaseAllSucceeds(s: Tables, ids: seq<nat>)
    requires Kept(s)
    requires forall k :: 0 <= k < |ids| ==> ids[k] < |s.holds| && s.holds[ids[k]].status.Open?
    requires forall j, k :: 0 <= j < k < |ids| ==> ids[j] != ids[k]
    ensures ReleaseAll(s, ids).Done? && ReleaseAll(s, ids).value == |ids| && Kept(ReleaseAll(s, ids).tables)
    ensures var after := ReleaseAll(s, ids).tables.holds;
            |after| == |s.holds| && forall h :: 0 <= h < |s.holds| ==>
              after[h] == if h in ids then s.holds[h].(status := Released) else s.holds[h]
  {
    if ids != [] {
      var front, h := ids[..|ids| - 1], ids[|ids| - 1];
      ReleaseAllSucceeds(s, front);
      assert h !in front;
      ReleaseHoldSucceeds(ReleaseAll(s, front).tables, h);
      assert forall x :: x in ids <==> x in front || x == h;
    }
  }

  /** The cutting station can always take what was promised, and afterwards nothing of the item is
      open and no other item's reservation has changed. */
  lemma ConsumeForItemSucceeds(s: Tables, item: nat)
    requires Kept(s)
    ensures var r := ConsumeForItem(s, item);
            && r.Done? && Kept(r.tables) && |r.tables.holds| == |s.holds|
            && (forall h :: 0 <= h < |s.holds| ==>
                  r.tables.holds[h] == if s.holds[h].item == item && s.holds[h].status.Open?
                                       then s.holds[h].(status := Consumed) else s.holds[h])
  {
    CutAllSucceeds(s, OpenHolds(s.holds, {item}));
  }

  lemma ReleaseForOrderSucceeds(s: Tables, items: set<nat>)
    requires Kept(s)
    ensures var r := ReleaseForOrder(s, items);
            && r.Done? && Kept(r.tables) && |r.tables.holds| == |s.holds|
            && (forall h :: 0 <= h < |s.holds| ==>
                  r.tables.holds[h] == if s.holds[h].item in items && s.holds[h].status.Open?
                                       then s.holds[h].(status := Released) else s.holds[h])
  {
    ReleaseAllSucceeds(s, OpenHolds(s.holds, items));
  }

  // ---- a cut that selected its reservations before another one consumed them ----

  function MetersOf(holds: seq<Hold>, ids: seq<nat>): int
    requires forall k :: 0 <= k < |ids| ==> ids[k] < |holds|
  {
    if ids == [] then 0 else MetersOf(holds, ids[..|ids| - 1]) + holds[ids[|ids| - 1]].meters
  }

  lemma {:induction false} MetersArePositive(holds: seq<Hold>, ids: seq<nat>)
    requires forall k :: 0 <= k < |ids| ==> ids[k] < |holds|
    requires forall h :: 0 <= h < |holds| ==> holds[h].meters > 0
    ensures MetersOf(holds, ids) >= 0
    ensures MetersOf(holds, ids) == 0 <==> ids == []
  {
    if ids != [] {
      MetersArePositive(holds, ids[..|ids| - 1]);
    }
  }

  /** The loop does not look at a reservation's status again: every metre is deducted once more and no
      reservation accounts for it. */
  lemma {:induction false} ConsumedAgain(s: Tables, ids: seq<nat>, item: nat)
    requires HoldsPlaced(s)
    requires forall k :: 0 <= k < |ids| ==>
               ids[k] < |s.holds| && s.holds[ids[k]].status.Consumed? && s.holds[ids[k]].item == item
    requires CutAll(s, ids).Done?
    ensures var t := CutAll(s, ids).tables;
            t.holds == s.holds && DeductedFor(t.log, item) == DeductedFor(s.log, item) + MetersOf(s.holds, ids)
  {
    if ids != [] {
      var front, h := ids[..|ids| - 1], ids[|ids| - 1];
      ConsumedAgain(s, front, item);
      var t := CutAll(s, front).tables;
      var u := CutHold(t, h).value;
      AppendMovement(t.log, u.log[|t.log|], |t.batches|);
      assert u.holds == s.holds;
    }
  }

  /** Two cuts of one item that overlap select the same reservations. If the second goes through, the
      item has been cut twice over, and the tables are sound only if there was nothing to cut. */
  lemma OverlappingCutsKeepExactlyWhen(s: Tables, item: nat)
    requires Kept(s)
    ensures var ids := OpenHolds(s.holds, {item});
            var once := CutAll(s, ids);
            && once.Done?
            && var twice := CutAll(once.tables, ids);
               twice.Done? ==>
                 && (Sound(twice.tables) <==> ids == [])
                 && DeductedFor(twice.tables.log, item)
                    == ConsumedFor(twice.tables.holds, item) + MetersOf(s.holds, ids)
  {
    hide OpenHolds, LogFits, RowFits, TransfersCancel, DeductedFor, ConsumedFor;
    var ids := OpenHolds(s.holds, {item});
    CutAllSucceeds(s, ids);
    var once := CutAll(s, ids).tables;
    SameMeters(s.holds, once.holds, ids);
    MetersArePositive(s.holds, ids);
    assert ItemFits(once, item);
    var twice := CutAll(once, ids);
    if twice.Done? {
      ConsumedAgain(once, ids, item);
      assert Sound(twice.tables) ==> ItemFits(twice.tables, item);
    }
  }

  lemma {:induction false} SameMeters(before: seq<Hold>, after: seq<Hold>, ids: seq<nat>)
    requires |before| == |after| && forall h :: 0 <= h < |before| ==> after[h].meters == before[h].meters
    requires forall k :: 0 <= k < |ids| ==> ids[k] < |before|
    ensures MetersOf(after, ids) == MetersOf(before, ids)
  {
    if ids != [] {
      SameMeters(before, after, ids[..|ids| - 1]);
    }
  }
}
