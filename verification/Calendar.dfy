/** Appointment slots of one store; times are in minutes. */
module Calendar {
  import opened Basics

  // `availability.service.ts` and `appointments.service.ts`. Times count from a fixed origin.

  datatype Status = Scheduled | Confirmed | InProgress | Completed | Cancelled | NoShow

  datatype Appointment = Appointment(start: int, duration: int, status: Status)

  const SLOT_MINUTES: int := 30

  predicate Active(a: Appointment) {
    a.status.Scheduled? || a.status.Confirmed? || a.status.InProgress?
  }

  function End(a: Appointment): int {
    a.start + a.duration
  }

  predicate Overlap(start: int, end: int, a: Appointment) {
    start < End(a) && a.start < end
  }

  /** What assertSlotFree's query selects: active, starting before the new end, and not the one
      being moved. */
  predicate Candidate(book: seq<Appointment>, i: nat, end: int, exclude: int) {
    i < |book| && i != exclude && Active(book[i]) && book[i].start < end
  }

  /** The candidate the query returns: the latest to start. */
  function LatestAmong(book: seq<Appointment>, end: int, exclude: int, n: nat): (latest: int)
    requires n <= |book|
    ensures -1 <= latest < n
    ensures latest == -1 ==> forall i: nat :: i < n ==> !Candidate(book, i, end, exclude)
    ensures latest >= 0 ==> Candidate(book, latest, end, exclude)
                            && forall i: nat :: i < n && Candidate(book, i, end, exclude) ==>
                                 book[i].start <= book[latest].start
  {
    if n == 0 then -1
    else
      var latest := LatestAmong(book, end, exclude, n - 1);
      if Candidate(book, n - 1, end, exclude) && (latest == -1 || book[latest].start < book[n - 1].start)
      then n - 1 else latest
  }

  /** assertSlotFree: only the latest-starting candidate is looked at. */
  predicate SlotFree(book: seq<Appointment>, start: int, duration: int, exclude: int) {
    var clash := LatestAmong(book, start + duration, exclude, |book|);
    clash == -1 || start >= End(book[clash])
  }

  /** The statuses that give a slot back. */
  const OVER: set<Status> := {Completed, Cancelled, NoShow}

  /** The check one would write down: everything that is not over ends before or starts after. */
  predicate NothingOverlaps(book: seq<Appointment>, start: int, duration: int, exclude: int) {
    forall i :: 0 <= i < |book| && i != exclude && book[i].status !in OVER ==>
      book[i].start + book[i].duration <= start || start + duration <= book[i].start
  }

  /** Of any two appointments that are not over, one ends before the other starts. */
  predicate Disjoint(book: seq<Appointment>) {
    && (forall i :: 0 <= i < |book| ==> book[i].duration > 0)
    && (forall i, j :: 0 <= i < j < |book| && book[i].status !in OVER && book[j].status !in OVER ==>
          book[i].start + book[i].duration <= book[j].start || book[j].start + book[j].duration <= book[i].start)
  }

  /** On a calendar without overlaps, looking at the latest starter decides the same as looking at
      every active appointment. */
  lemma LatestDecides(book: seq<Appointment>, start: int, duration: int, exclude: int)
    requires Disjoint(book)
    ensures SlotFree(book, start, duration, exclude) <==> NothingOverlaps(book, start, duration, exclude)
  {
    var end := start + duration;
    var clash := LatestAmong(book, end, exclude, |book|);
    if clash >= 0 && start < End(book[clash]) {
      assert Active(book[clash]) && Overlap(start, end, book[clash]);
    } else {
      forall i | 0 <= i < |book| && i != exclude && Active(book[i])
        ensures !Overlap(start, end, book[i])
      {
        assert book[i].start < end ==> Candidate(book, i, end, exclude);
        if clash >= 0 {
          if i < clash {
            assert !Overlap(book[i].start, End(book[i]), book[clash]);
          } else if clash < i {
            assert !Overlap(book[clash].start, End(book[clash]), book[i]);
          }
        }
      }
    }
  }

  // ---- the operations ----

  datatype Refusal = Past | Taken | NotFound | Closed | NothingToDo

  datatype Outcome = Saved(book: seq<Appointment>) | Refused(why: Refusal)

  function BookSlot(book: seq<Appointment>, now: int, start: int, duration: int): Outcome {
    if start < now then Refused(Past)
    else if !SlotFree(book, start, duration, -1) then Refused(Taken)
    else Saved(book + [Appointment(start, duration, Scheduled)])
  }

  datatype CustomerChange = Cancel | MoveTo(start: int) | Neither

  function CustomerUpdate(book: seq<Appointment>, now: int, id: nat, change: CustomerChange): Outcome {
    if id >= |book| then Refused(NotFound)
    else if !(book[id].status.Scheduled? || book[id].status.Confirmed?) then Refused(Closed)
    else
      match change
      case Cancel => Saved(book[id := book[id].(status := Cancelled)])
      case Neither => Refused(NothingToDo)
      case MoveTo(start) =>
        if start < now then Refused(Past)
        else if !SlotFree(book, start, book[id].duration, id) then Refused(Taken)
        else Saved(book[id := book[id].(start := start, status := Scheduled)])
  }

  function StaffUpdate(book: seq<Appointment>, id: nat, status: Status): Outcome {
    if id >= |book| then Refused(NotFound) else Saved(book[id := book[id].(status := status)])
  }

  lemma BookKeeps(book: seq<Appointment>, now: int, start: int, duration: int)
    requires Disjoint(book) && duration > 0 && BookSlot(book, now, start, duration).Saved?
    ensures Disjoint(BookSlot(book, now, start, duration).book)
  {
    LatestDecides(book, start, duration, -1);
  }

  lemma CustomerUpdateKeeps(book: seq<Appointment>, now: int, id: nat, change: CustomerChange)
    requires Disjoint(book) && CustomerUpdate(book, now, id, change).Saved?
    ensures Disjoint(CustomerUpdate(book, now, id, change).book)
  {
    match change {
      case MoveTo(start) => LatestDecides(book, start, book[id].duration, id);
      case _ =>
    }
  }

  /** A customer's change is accepted exactly while the appointment is scheduled or confirmed and, for a
      move, when the new time is not past and everything else leaves it free; a move changes the start
      and asks for confirmation again, a cancellation changes the status, and nothing else changes. */
  lemma CustomerUpdateExactlyWhen(book: seq<Appointment>, now: int, id: nat, change: CustomerChange)
    requires Disjoint(book)
    ensures var r := CustomerUpdate(book, now, id, change);
            && (r.Saved? <==>
                  && id < |book| && book[id].status in {Scheduled, Confirmed} && change != Neither
                  && (change.MoveTo? ==>
                        change.start >= now && NothingOverlaps(book, change.start, book[id].duration, id)))
            && (r.Saved? ==>
                  && |r.book| == |book| && (forall i :: 0 <= i < |book| && i != id ==> r.book[i] == book[i])
                  && r.book[id].duration == book[id].duration
                  && (change.MoveTo? ==> r.book[id].start == change.start && r.book[id].status == Scheduled)
                  && (change.Cancel? ==> r.book[id].start == book[id].start && r.book[id].status == Cancelled))
  {
    if id < |book| && change.MoveTo? {
      LatestDecides(book, change.start, book[id].duration, id);
    }
  }

  /** A staff update keeps the calendar free of overlaps exactly when it does not bring an
      appointment back into a slot that is taken. */
  lemma StaffUpdateKeepsExactlyWhen(book: seq<Appointment>, id: nat, status: Status)
    requires Disjoint(book) && id < |book|
    ensures var after := StaffUpdate(book, id, status).book;
            Disjoint(after) <==>
              || !Active(after[id]) || Active(book[id])
              || SlotFree(book, book[id].start, book[id].duration, id)
  {
    var after := StaffUpdate(book, id, status).book;
    LatestDecides(book, book[id].start, book[id].duration, id);
    if Active(after[id]) && !Active(book[id]) {
      if Disjoint(after) {
        forall i | 0 <= i < |book| && i != id && Active(book[i])
          ensures !Overlap(book[id].start, End(book[id]), book[i])
        {
          assert after[i] == book[i] && after[id].start == book[id].start;
        }
      }
    }
  }

  /** The unchecked reactivation: a cancelled slot is booked again, then the first one restored. */
  lemma ReactivationCanClash()
    ensures var book := [Appointment(600, 30, Cancelled), Appointment(600, 30, Scheduled)];
            Disjoint(book) && !Disjoint(StaffUpdate(book, 0, Confirmed).book)
  {
    var book := [Appointment(600, 30, Cancelled), Appointment(600, 30, Scheduled)];
    var after := StaffUpdate(book, 0, Confirmed).book;
    assert Overlap(after[0].start, End(after[0]), after[1]);
  }

  // ---- whole runs ----

  datatype Op =
    | DoBook(now: int, start: int, duration: int)
    | DoCustomer(now: int, id: nat, change: CustomerChange)
    | DoStaff(id: nat, status: Status)

  function Perform(book: seq<Appointment>, op: Op): Outcome {
    match op
    case DoBook(now, start, duration) => BookSlot(book, now, start, duration)
    case DoCustomer(now, id, change) => CustomerUpdate(book, now, id, change)
    case DoStaff(id, status) => StaffUpdate(book, id, status)
  }

  /** What the run asks of each request: positive durations, and no staff update that reactivates an
      appointment whose slot is taken. */
  predicate Admissible(book: seq<Appointment>, op: Op) {
    match op
    case DoBook(_, _, duration) => duration > 0
    case DoCustomer(_, _, _) => true
    case DoStaff(id, status) =>
      id < |book| ==> !Active(book[id].(status := status)) || Active(book[id])
                      || SlotFree(book, book[id].start, book[id].duration, id)
  }

  function After(book: seq<Appointment>, op: Op): seq<Appointment> {
    if Perform(book, op).Saved? then Perform(book, op).book else book
  }

  function Run(ops: seq<Op>): seq<Appointment> {
    if ops == [] then [] else After(Run(ops[..|ops| - 1]), ops[|ops| - 1])
  }

  predicate AllAdmissible(ops: seq<Op>) {
    ops == [] || (AllAdmissible(ops[..|ops| - 1]) && Admissible(Run(ops[..|ops| - 1]), ops[|ops| - 1]))
  }

  /** Active appointments stay disjoint over every admissible run. */
  lemma {:induction false} EveryRunStaysDisjoint(ops: seq<Op>)
    requires AllAdmissible(ops)
    ensures Disjoint(Run(ops))
  {
    if ops != [] {
      var book, op := Run(ops[..|ops| - 1]), ops[|ops| - 1];
      EveryRunStaysDisjoint(ops[..|ops| - 1]);
      if Perform(book, op).Saved? {
        match op {
          case DoBook(now, start, duration) => BookKeeps(book, now, start, duration);
          case DoCustomer(now, id, change) => CustomerUpdateKeeps(book, now, id, change);
          case DoStaff(id, status) => StaffUpdateKeepsExactlyWhen(book, id, status);
        }
      }
    }
  }

  // ---- listing slots ----

  datatype Slot = Slot(time: int, available: bool)

  /** Some active appointment starting within opening hours overlaps the slot. */
  predicate OverlapsListed(book: seq<Appointment>, open: int, close: int, start: int, duration: int) {
    exists i :: 0 <= i < |book| && Active(book[i]) && open <= book[i].start < close
                && Overlap(start, start + duration, book[i])
  }

  /** The grid of half hours from opening whose slot ends by closing. */
  predicate OnGrid(open: int, close: int, duration: int, time: int) {
    time >= open && (time - open) % SLOT_MINUTES == 0 && time + duration <= close
  }

  method GetSlots(book: seq<Appointment>, open: int, close: int, duration: int, now: int) returns (slots: seq<Slot>)
    ensures forall k :: 0 <= k < |slots| ==>
              && OnGrid(open, close, duration, slots[k].time)
              && slots[k].time == open + k * SLOT_MINUTES
              && slots[k].available
                 == (!OverlapsListed(book, open, close, slots[k].time, duration) && slots[k].time > now)
    ensures forall time :: OnGrid(open, close, duration, time) ==>
              exists k :: 0 <= k < |slots| && slots[k].time == time
  {
    slots := [];
    var slot := open;
    while slot + duration <= close
      invariant slot == open + |slots| * SLOT_MINUTES
      invariant |slots| > 0 ==> slots[|slots| - 1].time + duration <= close
      invariant forall k :: 0 <= k < |slots| ==>
                  && OnGrid(open, close, duration, slots[k].time)
                  && slots[k].time == open + k * SLOT_MINUTES
                  && slots[k].available
                     == (!OverlapsListed(book, open, close, slots[k].time, duration) && slots[k].time > now)
      decreases close - slot - duration
    {
      var overlaps := OverlapsListed(book, open, close, slot, duration);
      slots := slots + [Slot(slot, !overlaps && slot > now)];
      slot := slot + SLOT_MINUTES;
    }
    forall time | OnGrid(open, close, duration, time)
      ensures exists k :: 0 <= k < |slots| && slots[k].time == time
    {
      var k := (time - open) / SLOT_MINUTES;
      assert time == open + k * SLOT_MINUTES;
      assert 0 <= k < |slots|;
      assert slots[k].time == time;
    }
  }

  /** An active appointment that started before opening is still running at the slot. */
  predicate RunsPastOpening(book: seq<Appointment>, open: int, start: int) {
    exists i :: 0 <= i < |book| && Active(book[i]) && book[i].start < open && start < End(book[i])
  }

  /** assertSlotFree accepts a listed time exactly when the listing shows no overlap and nothing from
      before opening, which the listing does not see, runs into it. */
  lemma ListingAgreesExactlyWhen(book: seq<Appointment>, open: int, close: int, start: int, duration: int)
    requires Disjoint(book) && duration > 0 && OnGrid(open, close, duration, start)
    ensures SlotFree(book, start, duration, -1)
        <==> !OverlapsListed(book, open, close, start, duration) && !RunsPastOpening(book, open, start)
  {
    LatestDecides(book, start, duration, -1);
    if !SlotFree(book, start, duration, -1) {
      var i :| 0 <= i < |book| && Active(book[i]) && Overlap(start, start + duration, book[i]);
    }
    if RunsPastOpening(book, open, start) {
      var i :| 0 <= i < |book| && Active(book[i]) && book[i].start < open && start < End(book[i]);
      assert Overlap(start, start + duration, book[i]);
    }
  }

  /** One booking at 8:50 for half an hour, with opening at 9:00: the listing shows 9:00 free of
      overlap, and booking it is refused. */
  lemma ListingMissesAnEarlierStart(close: int)
    ensures var book := Run([DoBook(0, 530, 30)]);
            && Disjoint(book) && RunsPastOpening(book, 540, 540)
            && !OverlapsListed(book, 540, close, 540, 30)
            && BookSlot(book, 0, 540, 30) == Refused(Taken)
  {
    var ops := [DoBook(0, 530, 30)];
    assert ops[..0] == [];
    var book := Run(ops);
    assert book == [Appointment(530, 30, Scheduled)];
    assert Overlap(540, 570, book[0]);
    LatestDecides(book, 540, 30, -1);
  }

  // ---- the service ----

  /** The appointments of one store, changed in place. */
  class StoreCalendar {
    var book: seq<Appointment>

    constructor ()
      ensures book == [] && Disjoint(book)
    {
      book := [];
    }

    method Book(now: int, start: int, duration: int) returns (refusal: Option<Refusal>)
      requires Disjoint(book) && duration > 0
      modifies this
      ensures Disjoint(book)
      ensures refusal.None? <==> start >= now && old(NothingOverlaps(book, start, duration, -1))
      ensures book == if refusal.None? then old(book) + [Appointment(start, duration, Scheduled)] else old(book)
    {
      LatestDecides(book, start, duration, -1);
      if start < now {
        return Some(Past);
      }
      if !SlotFree(book, start, duration, -1) {
        return Some(Taken);
      }
      BookKeeps(book, now, start, duration);
      book := book + [Appointment(start, duration, Scheduled)];
      return None;
    }

    method UpdateForCustomer(now: int, id: nat, change: CustomerChange) returns (refusal: Option<Refusal>)
      requires Disjoint(book)
      modifies this
      ensures Disjoint(book)
      ensures match CustomerUpdate(old(book), now, id, change)
              case Saved(after) => refusal.None? && book == after
              case Refused(why) => refusal == Some(why) && book == old(book)
      ensures change.MoveTo? && refusal.None? ==>
                && id < |book| && old(NothingOverlaps(book, change.start, book[id].duration, id))
                && book == old(book)[id := Appointment(change.start, old(book)[id].duration, Scheduled)]
      ensures change.Cancel? && refusal.None? ==>
                id < |book| && book == old(book)[id := old(book)[id].(status := Cancelled)]
    {
      CustomerUpdateExactlyWhen(book, now, id, change);
      if id >= |book| {
        return Some(NotFound);
      }
      if !(book[id].status.Scheduled? || book[id].status.Confirmed?) {
        return Some(Closed);
      }
      match change {
        case Neither => return Some(NothingToDo);
        case Cancel =>
          CustomerUpdateKeeps(book, now, id, change);
          book := book[id := book[id].(status := Cancelled)];
        case MoveTo(start) =>
          if start < now {
            return Some(Past);
          }
          if !SlotFree(book, start, book[id].duration, id) {
            return Some(Taken);
          }
          CustomerUpdateKeeps(book, now, id, change);
          book := book[id := book[id].(start := start, status := Scheduled)];
      }
      return None;
    }

    method UpdateForStaff(id: nat, status: Status) returns (refusal: Option<Refusal>)
      requires Disjoint(book)
      modifies this
      ensures match StaffUpdate(old(book), id, status)
              case Saved(after) => refusal.None? && book == after
              case Refused(why) => refusal == Some(why) && book == old(book)
      ensures book == if id < |old(book)| then old(book)[id := old(book)[id].(status := status)] else old(book)
      ensures Disjoint(book) <==> old(id < |book| ==>
                !Active(book[id].(status := status)) || Active(book[id])
                || SlotFree(book, book[id].start, book[id].duration, id))
    {
      if id >= |book| {
        return Some(NotFound);
      }
      StaffUpdateKeepsExactlyWhen(book, id, status);
      book := book[id := book[id].(status := status)];
      return None;
    }
  }
}
