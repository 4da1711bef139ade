/** The ticket service over the stock room: `createTicketsForOrder` one ticket at a time, and
    `moveTicket` with its two transactions. */
module Production {
  import opened Stock
  import opened StockOps
  import opened StockTheorems
  import opened StockRoomService
  import Workshop

  datatype MoveAnswer = Started | Unchanged | TicketNotFound | Skips

  class TicketService {
    const room: StockRoom
    var items: nat
    var tickets: seq<Workshop.Ticket>
    var moving: seq<Workshop.Pending>

    ghost function View(): Workshop.Floor
      reads this, room
    {
      Workshop.Floor(room.View(), items, tickets, moving)
    }

    constructor ()
      ensures View() == Workshop.EMPTY && Workshop.FloorFits(View()) && fresh(room)
    {
      room := new StockRoom();
      items, tickets, moving := 0, [], [];
    }

    /** The order items of a new order with their fabric: all reservations are held, or there is no
        order. */
    method Checkout(store: nat, wishes: seq<Workshop.Wish>) returns (answer: Answer<()>)
      requires Workshop.FloorFits(View()) && forall i :: 0 <= i < |wishes| ==> wishes[i].meters > 0
      modifies this`items, room
      ensures Workshop.FloorFits(View())
      ensures View() == Workshop.Step(old(View()), {}, Workshop.Checkout(store, wishes))
      ensures answer == AnswerOf(ReserveAll(old(room.View()), store, Workshop.Garments(wishes, old(items))))
      ensures items == if answer.Ok? then old(items) + |wishes| else old(items)
      ensures answer.Ok? <==> AllSupplied(old(room.batches), store, Workshop.Garments(wishes, old(items)))
      ensures answer.Ok? ==> forall i :: 0 <= i < |wishes| ==>
                Workshop.PromisedTo(room.holds, old(items) + i) == Workshop.MetresOf(wishes[i])
    {
      hide Workshop.PromisedTo, Workshop.TicketFits, Workshop.PendingFits, Workshop.MetresOf, Sound, AllSupplied,
           ReserveAll;
      ghost var before := View();
      Workshop.StepFits(View(), {}, Workshop.Checkout(store, wishes));
      answer := room.Checkout(store, Workshop.Garments(wishes, items));
      if answer.Ok? {
        items := items + |wishes|;
        Workshop.EveryWishIsPromised(before, {}, store, wishes);
      }
    }

    /** A ticket for an order item that has none. */
    method CreateTicket(item: nat)
      requires Workshop.FloorFits(View())
      modifies this
      ensures Workshop.FloorFits(View())
      ensures View() == Workshop.Step(old(View()), {}, Workshop.OpenTicket(item))
      ensures tickets == if item < items && forall t :: 0 <= t < |old(tickets)| ==> old(tickets)[t].item != item
                         then old(tickets) + [Workshop.Ticket(item, Workshop.Queued, [])] else old(tickets)
    {
      Workshop.StepFits(View(), {}, Workshop.OpenTicket(item));
      var i := 0;
      while i < |tickets| && tickets[i].item != item
        invariant 0 <= i <= |tickets|
        invariant forall t :: 0 <= t < i ==> tickets[t].item != item
      {
        i := i + 1;
      }
      if item < items && i == |tickets| {
        tickets := tickets + [Workshop.Ticket(item, Workshop.Queued, [])];
      }
    }

    /** Up to and including the first transaction: the checks, and the cut when the ticket leaves
        cutting forward. */
    method BeginMove(t: nat, to: Workshop.Station) returns (answer: MoveAnswer)
      requires Workshop.FloorFits(View())
      modifies this`moving, room
      ensures Workshop.FloorFits(View())
      ensures View() == Workshop.Step(old(View()), {}, Workshop.BeginMove(t, to))
      ensures answer == if t >= |tickets| then TicketNotFound
                        else if tickets[t].station == to then Unchanged
                        else if Workshop.Index(to) > Workshop.Index(tickets[t].station) + 1 then Skips
                        else Started
      ensures answer.Started? ==>
                moving == old(moving) + [Workshop.Pending(t, Workshop.Passage(tickets[t].station, to))]
      ensures room.View() == if answer.Started? && tickets[t].station == Workshop.Cutting && to == Workshop.Stitching
                             then Workshop.CutFor(old(room.View()), tickets[t].item) else old(room.View())
    {
      Workshop.StepFits(View(), {}, Workshop.BeginMove(t, to));
      if t >= |tickets| {
        return TicketNotFound;
      }
      var from := tickets[t].station;
      if from == to {
        return Unchanged;
      }
      if Workshop.Index(to) > Workshop.Index(from) + 1 {
        return Skips;
      }
      if from == Workshop.Cutting && Workshop.Index(to) > Workshop.Index(from) {
        var consumed := room.ConsumeForOrderItem(tickets[t].item);
      }
      moving := moving + [Workshop.Pending(t, Workshop.Passage(from, to))];
      return Started;
    }

    /** The second transaction of a move under way: the station and its history row. */
    method FinishMove(k: nat)
      requires Workshop.FloorFits(View()) && k < |moving|
      modifies this
      ensures Workshop.FloorFits(View())
      ensures View() == Workshop.Step(old(View()), {}, Workshop.FinishMove(k))
      ensures moving == old(moving[..k] + moving[k + 1..])
      ensures var p := old(moving[k]);
              && p.ticket < |old(tickets)|
              && tickets == old(tickets)[p.ticket := Workshop.Ticket(old(tickets)[p.ticket].item, p.passage.to,
                              old(tickets)[p.ticket].history + [p.passage])]
    {
      assert Workshop.PendingFits(View(), moving[k]);
      Workshop.StepFits(View(), {}, Workshop.FinishMove(k));
      var p := moving[k];
      if p.ticket < |tickets| {
        var ticket := tickets[p.ticket];
        tickets := tickets[p.ticket := Workshop.Ticket(ticket.item, p.passage.to, ticket.history + [p.passage])];
        moving := Workshop.Without(moving, k);
      }
    }

    /** A whole move, uninterrupted: one station row, one history row, and the fabric exactly when the
        garment leaves cutting for stitching. */
    method MoveTicket(t: nat, to: Workshop.Station) returns (answer: MoveAnswer)
      requires Workshop.FloorFits(View())
      modifies this, room
      ensures Workshop.FloorFits(View()) && moving == old(moving) && items == old(items)
      ensures !answer.Started? ==> View() == old(View())
      ensures answer.Started? ==>
                && t < |old(tickets)|
                && tickets == old(tickets)[t := Workshop.Ticket(old(tickets)[t].item, to,
                                old(tickets)[t].history + [Workshop.Passage(old(tickets)[t].station, to)])]
                && room.View() == if old(tickets)[t].station == Workshop.Cutting && to == Workshop.Stitching
                                  then Workshop.CutFor(old(room.View()), old(tickets)[t].item)
                                  else old(room.View())
      ensures answer.Started? && Workshop.Index(to) >= 2 ==> Workshop.NothingOpen(room.View(), tickets[t].item)
    {
      answer := BeginMove(t, to);
      if answer == Started {
        FinishMove(|moving| - 1);
        assert Workshop.TicketFits(View(), t);
      }
    }
  }
}
