/** The fabric tables of one tenant and the single-row writes. */
module Stock {
  import opened Basics

  // Rolls, the append-only movement log and the reservations, the writes every service is built from, and
  // what those writes keep. Lengths are integer hundredths of a metre.

  datatype Status = Available | Depleted | Quarantined

  datatype Batch = Batch(store: nat, fabric: string, code: string, current: int, reserved: int,
                         minUsable: int, bought: int, status: Status)

  datatype Kind = PurchaseIn | OrderOut | TransferOut | TransferIn | Adjustment

  /** A movement of the cutting station is for an order item; `cutFor` is that item. */
  datatype Movement = Movement(batch: nat, kind: Kind, quantity: int, prev: int, next: int, cutFor: Option<nat>)

  datatype HoldStatus = Open | Consumed | Released

  datatype Hold = Hold(batch: nat, item: nat, meters: int, status: HoldStatus)

  /** A batch's id is its position, so ids follow creation order; so do those of reservations. */
  datatype Tables = Tables(batches: seq<Batch>, log: seq<Movement>, holds: seq<Hold>)

  /** chk_batch_current_qty_nonnegative and chk_batch_reserved_within_current */
  predicate RowChecked(b: Batch) {
    0 <= b.current && 0 <= b.reserved <= b.current
  }

  /** chk_movement_quantity_positive and chk_movement_new_balance_nonnegative */
  predicate MovementChecked(m: Movement) {
    m.quantity > 0 && m.next >= 0
  }

  // ---- single writes: None is a CHECK aborting the transaction ----

  /** A new row with its first movement. */
  function Receive(s: Tables, row: Batch, kind: Kind, quantity: int): Option<Tables> {
    var m := Movement(|s.batches|, kind, quantity, 0, quantity, None);
    if RowChecked(row) && MovementChecked(m) then
      Some(s.(batches := s.batches + [row], log := s.log + [m]))
    else None
  }

  /** A new balance on an existing row with its movement. */
  function Move(s: Tables, b: nat, kind: Kind, quantity: int, next: int, status: Status): Option<Tables>
    requires b < |s.batches|
  {
    var row := s.batches[b].(current := next, status := status);
    var m := Movement(b, kind, quantity, s.batches[b].current, next, None);
    if RowChecked(row) && MovementChecked(m) then
      Some(s.(batches := s.batches[b := row], log := s.log + [m]))
    else None
  }

  function PlaceHold(s: Tables, b: nat, item: nat, meters: int): Option<Tables>
    requires b < |s.batches|
  {
    var row := s.batches[b].(reserved := s.batches[b].reserved + meters);
    if RowChecked(row) then
      Some(s.(batches := s.batches[b := row], holds := s.holds + [Hold(b, item, meters, Open)]))
    else None
  }

  /** The cutting station takes one reservation off its roll. */
  function CutHold(s: Tables, h: nat): Option<Tables>
    requires h < |s.holds| && s.holds[h].batch < |s.batches|
  {
    var hold := s.holds[h];
    var b := hold.batch;
    var next := s.batches[b].current - hold.meters;
    var unclamped := s.batches[b].reserved - hold.meters;
    var row := s.batches[b].(current := next,
                             reserved := if unclamped > 0 then unclamped else 0,
                             status := if next == 0 then Depleted else s.batches[b].status);
    var m := Movement(b, OrderOut, hold.meters, s.batches[b].current, next, Some(hold.item));
    if RowChecked(row) && MovementChecked(m) then
      Some(Tables(s.batches[b := row], s.log + [m], s.holds[h := hold.(status := Consumed)]))
    else None
  }

  function ReleaseHold(s: Tables, h: nat): Option<Tables>
    requires h < |s.holds| && s.holds[h].batch < |s.batches|
  {
    var hold := s.holds[h];
    var b := hold.batch;
    var row := s.batches[b].(reserved := s.batches[b].reserved - hold.meters);
    if RowChecked(row) then
      Some(s.(batches := s.batches[b := row], holds := s.holds[h := hold.(status := Released)]))
    else None
  }

  // ---- what the log and the reservations say ----

  /** The balance the log leaves a batch with. */
  function Balance(log: seq<Movement>, b: nat): int {
    if log == [] then 0
    else if log[|log| - 1].batch == b then log[|log| - 1].next
    else Balance(log[..|log| - 1], b)
  }

  predicate MovementFits(before: seq<Movement>, m: Movement, batches: nat) {
    && m.batch < batches
    && m.prev == Balance(before, m.batch)
    && MovementChecked(m)
    && (m.cutFor.Some? ==> m.kind.OrderOut?)
    && match m.kind
       case PurchaseIn | TransferIn => m.next == m.prev + m.quantity
       case OrderOut | TransferOut => m.next == m.prev - m.quantity
       case Adjustment => m.quantity == Abs(m.next - m.prev)
  }

  predicate LogFits(log: seq<Movement>, batches: nat) {
    log == [] || (LogFits(log[..|log| - 1], batches)
                  && MovementFits(log[..|log| - 1], log[|log| - 1], batches))
  }

  function HeldOn(holds: seq<Hold>, b: nat, status: HoldStatus): int {
    if holds == [] then 0
    else
      var last := holds[|holds| - 1];
      HeldOn(holds[..|holds| - 1], b, status)
      + if last.batch == b && last.status == status then last.meters else 0
  }

  function CutFrom(log: seq<Movement>, b: nat): int {
    if log == [] then 0
    else
      var last := log[|log| - 1];
      CutFrom(log[..|log| - 1], b) + if last.batch == b && last.cutFor.Some? then last.quantity else 0
  }

  /** Metres that left the rolls at the cutting station for an order item. */
  function DeductedFor(log: seq<Movement>, item: nat): int {
    if log == [] then 0
    else
      var last := log[|log| - 1];
      DeductedFor(log[..|log| - 1], item) + if last.cutFor == Some(item) then last.quantity else 0
  }

  /** Metres of an order item's consumed reservations. */
  function ConsumedFor(holds: seq<Hold>, item: nat): int {
    if holds == [] then 0
    else
      var last := holds[|holds| - 1];
      ConsumedFor(holds[..|holds| - 1], item) + if last.item == item && last.status.Consumed? then last.meters else 0
  }

  predicate ItemFits(s: Tables, item: nat) {
    DeductedFor(s.log, item) == ConsumedFor(s.holds, item)
  }

  predicate RowFits(s: Tables, b: nat)
    requires b < |s.batches|
  {
    && RowChecked(s.batches[b])
    && s.batches[b].current == Balance(s.log, b)
    && s.batches[b].reserved == HeldOn(s.holds, b, Open)
    && CutFrom(s.log, b) == HeldOn(s.holds, b, Consumed)
  }

  /** The invariant of the three tables: on every roll the reserved quantity is the sum of its open
      reservations, the current quantity is what the log says, and the metres that left through the
      cutting station are exactly those of its consumed reservations; so are, for every order item,
      the metres cut for it. */
  ghost predicate Sound(s: Tables) {
    && LogFits(s.log, |s.batches|)
    && (forall h :: 0 <= h < |s.holds| ==> s.holds[h].batch < |s.batches| && s.holds[h].meters > 0)
    && (forall b :: 0 <= b < |s.batches| ==> RowFits(s, b))
    && (forall item: nat :: ItemFits(s, item))
  }

  // ---- helpers on the sums ----

  lemma AppendMovement(log: seq<Movement>, m: Movement, batches: nat)
    ensures forall b :: Balance(log + [m], b) == if m.batch == b then m.next else Balance(log, b)
    ensures forall b :: CutFrom(log + [m], b)
                        == CutFrom(log, b) + if m.batch == b && m.cutFor.Some? then m.quantity else 0
    ensures forall item: nat :: DeductedFor(log + [m], item)
                                == DeductedFor(log, item) + if m.cutFor == Some(item) then m.quantity else 0
    ensures LogFits(log + [m], batches) == (LogFits(log, batches) && MovementFits(log, m, batches))
  {
    assert (log + [m])[..|log|] == log;
  }

  lemma AppendHold(holds: seq<Hold>, hold: Hold)
    ensures forall b, t :: HeldOn(holds + [hold], b, t)
              == HeldOn(holds, b, t) + if hold.batch == b && hold.status == t then hold.meters else 0
    ensures forall item: nat :: ConsumedFor(holds + [hold], item)
              == ConsumedFor(holds, item) + if hold.item == item && hold.status.Consumed? then hold.meters else 0
  {
    assert (holds + [hold])[..|holds|] == holds;
  }

  lemma {:induction false} UpdateHold(holds: seq<Hold>, h: nat, status: HoldStatus, b: nat, t: HoldStatus)
    requires h < |holds|
    ensures HeldOn(holds[h := holds[h].(status := status)], b, t) == HeldOn(holds, b, t)
              - (if holds[h].batch == b && holds[h].status == t then holds[h].meters else 0)
              + (if holds[h].batch == b && status == t then holds[h].meters else 0)
  {
    var front, last := holds[..|holds| - 1], |holds| - 1;
    var after := holds[h := holds[h].(status := status)];
    if h == last {
      assert after[..last] == front;
    } else {
      UpdateHold(front, h, status, b, t);
      assert after[..last] == front[h := front[h].(status := status)];
    }
  }

  lemma {:induction false} UpdateHoldItem(holds: seq<Hold>, h: nat, status: HoldStatus, item: nat)
    requires h < |holds|
    ensures ConsumedFor(holds[h := holds[h].(status := status)], item) == ConsumedFor(holds, item)
              - (if holds[h].item == item && holds[h].status.Consumed? then holds[h].meters else 0)
              + (if holds[h].item == item && status.Consumed? then holds[h].meters else 0)
  {
    var front, last := holds[..|holds| - 1], |holds| - 1;
    var after := holds[h := holds[h].(status := status)];
    if h == last {
      assert after[..last] == front;
    } else {
      UpdateHoldItem(front, h, status, item);
      assert after[..last] == front[h := front[h].(status := status)];
    }
  }

  /** A single open reservation is part of its roll's sum. */
  lemma {:induction false} HoldIsCounted(holds: seq<Hold>, h: nat)
    requires h < |holds|
    requires forall i :: 0 <= i < |holds| ==> holds[i].meters > 0
    ensures holds[h].meters <= HeldOn(holds, holds[h].batch, holds[h].status)
    ensures forall b, t :: HeldOn(holds, b, t) >= 0
  {
    HeldIsNonNegative(holds);
    if h < |holds| - 1 {
      HoldIsCounted(holds[..|holds| - 1], h);
    } else {
      HeldIsNonNegative(holds[..|holds| - 1]);
    }
  }

  lemma {:induction false} HeldIsNonNegative(holds: seq<Hold>)
    requires forall i :: 0 <= i < |holds| ==> holds[i].meters > 0
    ensures forall b, t :: HeldOn(holds, b, t) >= 0
  {
    if holds != [] {
      HeldIsNonNegative(holds[..|holds| - 1]);
    }
  }

  lemma {:induction false} NothingYet(log: seq<Movement>, holds: seq<Hold>, n: nat)
    requires LogFits(log, n)
    requires forall h :: 0 <= h < |holds| ==> holds[h].batch < n
    ensures Balance(log, n) == 0 && CutFrom(log, n) == 0
    ensures forall t :: HeldOn(holds, n, t) == 0
    ensures LogFits(log, n + 1)
  {
    if log != [] {
      NothingYet(log[..|log| - 1], holds, n);
    } else if holds != [] {
      NothingYet(log, holds[..|holds| - 1], n);
    }
  }

  // ---- every single write keeps the invariant ----

  lemma ReceiveKeeps(s: Tables, row: Batch, kind: Kind, quantity: int)
    requires Sound(s) && Receive(s, row, kind, quantity).Some?
    requires row.current == quantity && row.reserved == 0 && (kind.PurchaseIn? || kind.TransferIn?)
    ensures Sound(Receive(s, row, kind, quantity).value)
  {
    hide LogFits, Balance, CutFrom, HeldOn, DeductedFor, ConsumedFor;
    var after := Receive(s, row, kind, quantity).value;
    var m := Movement(|s.batches|, kind, quantity, 0, quantity, None);
    NothingYet(s.log, s.holds, |s.batches|);
    AppendMovement(s.log, m, |s.batches| + 1);
    forall item: nat
      ensures ItemFits(after, item)
    {
      assert ItemFits(s, item);
    }
    forall b | 0 <= b < |after.batches|
      ensures RowFits(after, b)
    {
      if b < |s.batches| {
        assert RowFits(s, b);
      }
    }
  }

  lemma MoveKeeps(s: Tables, b: nat, kind: Kind, quantity: int, next: int, status: Status)
    requires b < |s.batches| && Sound(s) && Move(s, b, kind, quantity, next, status).Some?
    requires var diff := next - s.batches[b].current;
             match kind
             case PurchaseIn | TransferIn => diff == quantity
             case OrderOut | TransferOut => diff == -quantity
             case Adjustment => Abs(diff) == quantity
    ensures Sound(Move(s, b, kind, quantity, next, status).value)
  {
    hide LogFits, Balance, CutFrom, HeldOn, DeductedFor, ConsumedFor;
    var after := Move(s, b, kind, quantity, next, status).value;
    assert RowFits(s, b);
    AppendMovement(s.log, Movement(b, kind, quantity, s.batches[b].current, next, None), |s.batches|);
    forall item: nat
      ensures ItemFits(after, item)
    {
      assert ItemFits(s, item);
    }
    forall c | 0 <= c < |after.batches|
      ensures RowFits(after, c)
    {
      assert RowFits(s, c);
    }
  }

  lemma PlaceHoldKeeps(s: Tables, b: nat, item: nat, meters: int)
    requires b < |s.batches| && Sound(s) && meters > 0 && PlaceHold(s, b, item, meters).Some?
    ensures Sound(PlaceHold(s, b, item, meters).value)
  {
    var after := PlaceHold(s, b, item, meters).value;
    AppendHold(s.holds, Hold(b, item, meters, Open));
    forall item: nat
      ensures ItemFits(after, item)
    {
      assert ItemFits(s, item);
    }
    forall c | 0 <= c < |after.batches|
      ensures RowFits(after, c)
    {
      assert RowFits(s, c);
    }
  }

  /** What a cut that gets past the CHECK constraints leaves on each roll, whatever the reservation's
      status was. The source does not look at it again after selecting the row. */
  lemma CutRow(s: Tables, h: nat, c: nat)
    requires Sound(s) && h < |s.holds| && CutHold(s, h).Some? && c < |s.batches|
    ensures var hold, after := s.holds[h], CutHold(s, h).value;
            && (c != hold.batch ==> RowFits(after, c))
            && (c == hold.batch ==>
                  (RowFits(after, c) <==>
                     hold.status.Open? || (hold.status.Released? && s.batches[c].reserved == 0)))
  {
    var hold, after := s.holds[h], CutHold(s, h).value;
    var b := hold.batch;
    assert RowFits(s, c) && RowFits(s, b);
    HoldIsCounted(s.holds, h);
    AppendMovement(s.log, after.log[|s.log|], |s.batches|);
    UpdateHold(s.holds, h, Consumed, c, Open);
    UpdateHold(s.holds, h, Consumed, c, Consumed);
  }

  lemma CutItem(s: Tables, h: nat, item: nat)
    requires Sound(s) && h < |s.holds| && CutHold(s, h).Some?
    ensures ItemFits(CutHold(s, h).value, item) <==> item != s.holds[h].item || !s.holds[h].status.Consumed?
  {
    var after := CutHold(s, h).value;
    assert ItemFits(s, item);
    AppendMovement(s.log, after.log[|s.log|], |s.batches|);
    UpdateHoldItem(s.holds, h, Consumed, item);
  }

  /** A cut keeps the invariant exactly when its reservation is still open, or was released and
      nothing else is reserved on the roll, where the clamp at zero hides it. */
  lemma CutHoldKeepsExactlyWhen(s: Tables, h: nat)
    requires Sound(s) && h < |s.holds| && CutHold(s, h).Some?
    ensures Sound(CutHold(s, h).value) <==>
              || s.holds[h].status.Open?
              || (s.holds[h].status.Released? && s.batches[s.holds[h].batch].reserved == 0)
  {
    hide RowFits, ItemFits;
    var after := CutHold(s, h).value;
    CutLogFits(s, h);
    CutRow(s, h, s.holds[h].batch);
    forall c | 0 <= c < |after.batches|
      ensures c != s.holds[h].batch ==> RowFits(after, c)
    {
      CutRow(s, h, c);
    }
    forall item: nat
      ensures ItemFits(after, item) <==> item != s.holds[h].item || !s.holds[h].status.Consumed?
    {
      CutItem(s, h, item);
    }
  }

  lemma CutLogFits(s: Tables, h: nat)
    requires Sound(s) && h < |s.holds| && CutHold(s, h).Some?
    ensures LogFits(CutHold(s, h).value.log, |s.batches|)
  {
    var after := CutHold(s, h).value;
    assert RowFits(s, s.holds[h].batch);
    AppendMovement(s.log, after.log[|s.log|], |s.batches|);
  }

  /** Cutting an open reservation cannot fail: its metres are part of the reserved quantity, which
      never exceeds what is on the roll. So the clamp at zero is idle and the balance stays whole. */
  lemma CutHoldSucceeds(s: Tables, h: nat)
    requires Sound(s) && h < |s.holds| && s.holds[h].status.Open?
    ensures CutHold(s, h).Some?
    ensures var b := s.holds[h].batch;
            && 0 <= s.batches[b].reserved - s.holds[h].meters
            && 0 <= s.batches[b].current - s.holds[h].meters
            && CutHold(s, h).value.batches[b].reserved == s.batches[b].reserved - s.holds[h].meters
    ensures Sound(CutHold(s, h).value)
  {
    var b := s.holds[h].batch;
    assert RowFits(s, b);
    HoldIsCounted(s.holds, h);
    CutHoldKeepsExactlyWhen(s, h);
  }

  /** Two cuts that both selected the same open reservation: the second goes through whenever the roll
      still holds enough, deducts the metres again, and the item has been given more than was
      reserved for it. */
  lemma TwoCutsDeductTwice(s: Tables, h: nat)
    requires Sound(s) && h < |s.holds| && s.holds[h].status.Open?
    ensures CutHold(s, h).Some?
    ensures var hold, once := s.holds[h], CutHold(s, h).value;
            var row := s.batches[hold.batch];
            && (CutHold(once, h).Some? <==> row.current >= 2 * hold.meters)
            && (CutHold(once, h).Some? ==>
                  var twice := CutHold(once, h).value;
                  && |twice.batches| == |s.batches|
                  && twice.batches[hold.batch].current == row.current - 2 * hold.meters
                  && once.holds == twice.holds == s.holds[h := hold.(status := Consumed)]
                  && DeductedFor(twice.log, hold.item) == ConsumedFor(twice.holds, hold.item) + hold.meters
                  && !Sound(twice))
  {
    CutHoldSucceeds(s, h);
    var once := CutHold(s, h).value;
    assert RowFits(s, s.holds[h].batch);
    if CutHold(once, h).Some? {
      CutHoldKeepsExactlyWhen(once, h);
      var twice := CutHold(once, h).value;
      assert ItemFits(once, s.holds[h].item);
      AppendMovement(once.log, twice.log[|once.log|], |once.batches|);
      UpdateHoldItem(once.holds, h, Consumed, s.holds[h].item);
    }
  }

  lemma ReleaseHoldSucceeds(s: Tables, h: nat)
    requires Sound(s) && h < |s.holds| && s.holds[h].status.Open?
    ensures ReleaseHold(s, h).Some?
    ensures Sound(ReleaseHold(s, h).value)
  {
    var b := s.holds[h].batch;
    assert RowFits(s, b);
    HoldIsCounted(s.holds, h);
    var after := ReleaseHold(s, h).value;
    forall item: nat
      ensures ItemFits(after, item)
    {
      assert ItemFits(s, item);
      UpdateHoldItem(s.holds, h, Released, item);
    }
    forall c | 0 <= c < |after.batches|
      ensures RowFits(after, c)
    {
      assert RowFits(s, c);
      UpdateHold(s.holds, h, Released, c, Open);
      UpdateHold(s.holds, h, Released, c, Consumed);
    }
  }

  // ---- the log as an account of the stock ----

  lemma {:induction false} EveryMovementFits(log: seq<Movement>, batches: nat, j: nat)
    requires LogFits(log, batches) && j < |log|
    ensures MovementFits(log[..j], log[j], batches)
  {
    if j < |log| - 1 {
      EveryMovementFits(log[..|log| - 1], batches, j);
      assert log[..|log| - 1][..j] == log[..j];
    }
  }

  lemma {:induction false} BalanceIsLast(log: seq<Movement>, b: nat, i: nat)
    requires i < |log| && log[i].batch == b
    requires forall k :: i < k < |log| ==> log[k].batch != b
    ensures Balance(log, b) == log[i].next
  {
    if i < |log| - 1 {
      BalanceIsLast(log[..|log| - 1], b, i);
    }
  }

  lemma {:induction false} BalanceIsZero(log: seq<Movement>, b: nat)
    requires forall k :: 0 <= k < |log| ==> log[k].batch != b
    ensures Balance(log, b) == 0
  {
    if log != [] {
      BalanceIsZero(log[..|log| - 1], b);
    }
  }

  predicate Between(log: seq<Movement>, i: int, j: nat, b: nat)
    requires -1 <= i && j <= |log|
  {
    exists k :: i < k < j && log[k].batch == b
  }

  /** Each batch's movements form one unbroken chain: the first starts from zero, every later one
      from the balance the one before it left, and the last one left the current quantity. */
  lemma MovementsMeet(s: Tables, i: int, j: nat)
    requires Sound(s) && -1 <= i < j < |s.log|
    requires i >= 0 ==> s.log[i].batch == s.log[j].batch
    requires !Between(s.log, i, j, s.log[j].batch)
    ensures s.log[j].prev == if i >= 0 then s.log[i].next else 0
    ensures s.log[j].quantity == Abs(s.log[j].next - s.log[j].prev)
    ensures !Between(s.log, j, |s.log|, s.log[j].batch) ==>
              s.log[j].batch < |s.batches| && s.batches[s.log[j].batch].current == s.log[j].next
  {
    var b := s.log[j].batch;
    EveryMovementFits(s.log, |s.batches|, j);
    assert RowFits(s, b);
    if i >= 0 {
      BalanceIsLast(s.log[..j], b, i);
    } else {
      BalanceIsZero(s.log[..j], b);
    }
    if !Between(s.log, j, |s.log|, b) {
      BalanceIsLast(s.log, b, j);
    }
  }

  function Metres(log: seq<Movement>, kind: Kind): int {
    if log == [] then 0
    else
      var last := log[|log| - 1];
      Metres(log[..|log| - 1], kind) + if last.kind == kind then last.quantity else 0
  }

  /** Adjustments with their sign. */
  function Adjusted(log: seq<Movement>): int {
    if log == [] then 0
    else
      var last := log[|log| - 1];
      Adjusted(log[..|log| - 1]) + if last.kind.Adjustment? then last.next - last.prev else 0
  }

  function OnHand(batches: seq<Batch>): int {
    if batches == [] then 0 else OnHand(batches[..|batches| - 1]) + batches[|batches| - 1].current
  }

  function SumOfBalances(log: seq<Movement>, n: nat): int {
    if n == 0 then 0 else SumOfBalances(log, n - 1) + Balance(log, n - 1)
  }

  lemma {:induction false} SumAfter(log: seq<Movement>, m: Movement, n: nat)
    ensures SumOfBalances(log + [m], n)
         == SumOfBalances(log, n) + if m.batch < n then m.next - Balance(log, m.batch) else 0
  {
    AppendMovement(log, m, n);
    if n > 0 {
      SumAfter(log, m, n - 1);
    }
  }

  lemma {:induction false} LogAccounts(log: seq<Movement>, n: nat)
    requires LogFits(log, n)
    ensures SumOfBalances(log, n) == Metres(log, PurchaseIn) + Adjusted(log) - Metres(log, OrderOut)
                                     + Metres(log, TransferIn) - Metres(log, TransferOut)
  {
    if log == [] {
      NoBalances(n);
    } else {
      var front := log[..|log| - 1];
      LogAccounts(front, n);
      SumAfter(front, log[|log| - 1], n);
      assert front + [log[|log| - 1]] == log;
    }
  }

  lemma {:induction false} NoBalances(n: nat)
    ensures SumOfBalances([], n) == 0
  {
    if n > 0 {
      NoBalances(n - 1);
    }
  }

  lemma {:induction false} OnHandIsLogged(batches: seq<Batch>, log: seq<Movement>)
    requires forall b :: 0 <= b < |batches| ==> batches[b].current == Balance(log, b)
    ensures OnHand(batches) == SumOfBalances(log, |batches|)
  {
    if batches != [] {
      OnHandIsLogged(batches[..|batches| - 1], log);
    }
  }

  predicate TransfersCancel(s: Tables) {
    Metres(s.log, TransferIn) == Metres(s.log, TransferOut)
  }

  /** The tenant's metres on hand are its purchases and signed adjustments less what went out on
      orders; transfers do not show. */
  lemma StockIsConserved(s: Tables)
    requires Sound(s) && TransfersCancel(s)
    ensures OnHand(s.batches) == Metres(s.log, PurchaseIn) + Adjusted(s.log) - Metres(s.log, OrderOut)
  {
    forall b | 0 <= b < |s.batches|
      ensures s.batches[b].current == Balance(s.log, b)
    {
      assert RowFits(s, b);
    }
    OnHandIsLogged(s.batches, s.log);
    LogAccounts(s.log, |s.batches|);
  }
}
