/** What the stock services do, said of the columns of the tables and of the requests themselves. */
module StockEffects {
  import opened Basics
  import opened Stock
  import opened StockOps
  import opened StockTheorems
  import Fifo

  // ---- purchases, adjustments and transfers ----

  /** A purchase is logged exactly when it has length and the store has no roll of that code yet. */
  lemma {:induction false} CreateBatchExactlyWhen(s: Tables, store: nat, fabric: string, code: string,
                                                  quantity: int, bought: int)
    ensures var r := CreateBatch(s, store, fabric, code, quantity, bought);
            && (r.Done? <==> quantity > 0 && forall b :: 0 <= b < |s.batches| ==>
                              s.batches[b].store != store || s.batches[b].code != code)
            && (r.Done? ==>
                  && r.value == |s.batches| && r.tables.holds == s.holds
                  && r.tables.batches
                     == s.batches + [Batch(store, fabric, code, quantity, 0, 350, bought, Available)]
                  && r.tables.log == s.log + [Movement(|s.batches|, PurchaseIn, quantity, 0, quantity, None)])
  {
    FoundIsThere(s.batches, store, code);
  }

  /** An adjustment goes through exactly when it changes something and leaves at least what is reserved;
      then the roll holds its old length plus delta, and nothing else has changed. */
  lemma {:induction false} AdjustBatchExactlyWhen(s: Tables, store: nat, b: nat, delta: int)
    requires Kept(s)
    ensures var r := AdjustBatch(s, store, b, delta);
            && (r.Done? <==> delta != 0 && b < |s.batches| && s.batches[b].store == store
                             && s.batches[b].current + delta >= s.batches[b].reserved)
            && (r.Done? ==> LengthChanged(s, r.tables, b, delta))
  {
    RowsAreChecked(s);
  }

  /** One roll's length has changed by delta. */
  predicate LengthChanged(s: Tables, t: Tables, b: nat, delta: int) {
    && b < |s.batches| == |t.batches|
    && t.batches[b].current == s.batches[b].current + delta
    && t.batches[b].status == (if t.batches[b].current == 0 then Depleted else Available)
    && t.batches[b].(current := 0, status := Available) == s.batches[b].(current := 0, status := Available)
    && (forall c :: 0 <= c < |s.batches| && c != b ==> t.batches[c] == s.batches[c])
    && t.holds == s.holds
  }

  /** A transfer goes through exactly when both stores differ and what leaves is not reserved. It takes
      the metres off the source, and puts them on the destination's roll of the same code, which takes
      fabric and age from the source when it is new. */
  lemma {:induction false} TransferExactlyWhen(s: Tables, stores: set<nat>, src: nat, dest: nat, quantity: int)
    requires Kept(s)
    ensures var r := Transfer(s, stores, src, dest, quantity);
            && (r.Done? <==> src < |s.batches| && dest in stores && dest != s.batches[src].store
                             && 0 < quantity <= s.batches[src].current - s.batches[src].reserved)
            && (r.Done? ==> Transferred(s, r.tables, src, dest, r.value, quantity))
  {
    hide Kept;
    RowsAreChecked(s);
    if src < |s.batches| {
      var source := s.batches[src];
      var next := source.current - quantity;
      var moved := Move(s, src, TransferOut, quantity, next, StatusAfterDraw(source, next));
      if moved.Some? {
        var t := moved.value;
        FoundIsThere(t.batches, dest, source.code);
        var found := FindBatch(t.batches, dest, source.code);
        if found.Some? && dest != source.store {
          assert t.batches[found.value] == s.batches[found.value];
        }
      }
    }
  }

  predicate Transferred(s: Tables, t: Tables, src: nat, dest: nat, at: nat, quantity: int) {
    && src < |s.batches| && at < |t.batches| && src != at && t.holds == s.holds
    && var source, left := s.batches[src], s.batches[src].current - quantity;
       && |s.batches| <= |t.batches|
       && t.batches[src] == source.(current := left, status := if left == 0 then Depleted else source.status)
       && t.batches[at].store == dest && t.batches[at].code == source.code
       && (forall b :: 0 <= b < |s.batches| && b != src && b != at ==> t.batches[b] == s.batches[b])
       && (if at < |s.batches| then
             && |t.batches| == |s.batches|
             && t.batches[at] == s.batches[at].(current := s.batches[at].current + quantity, status := Available)
           else
             && at == |s.batches| && |t.batches| == |s.batches| + 1
             && t.batches[at] == Batch(dest, source.fabric, source.code, quantity, 0, 350, source.bought, Available)
             && (forall b :: 0 <= b < |s.batches| ==>
                   s.batches[b].store != dest || s.batches[b].code != source.code))
  }

  // ---- first in, first out ----

  predicate InStock(row: Batch, store: nat, fabric: string) {
    row.store == store && row.fabric == fabric && row.status == Available && row.current > 0
  }

  /** Metres of a fabric in a store. */
  function Stocked(batches: seq<Batch>, store: nat, fabric: string): int {
    if batches == [] then 0
    else
      var last := batches[|batches| - 1];
      Stocked(batches[..|batches| - 1], store, fabric) + if InStock(last, store, fabric) then last.current else 0
  }

  /** Bought earlier, or on the same day and entered earlier. */
  predicate Precedes(batches: seq<Batch>, i: nat, j: nat)
    requires i < |batches| && j < |batches|
  {
    batches[i].bought < batches[j].bought || (batches[i].bought == batches[j].bought && i < j)
  }

  /** Only rolls of the fabric in the store get shorter, and a roll loses fabric only once every roll
      that precedes it is used up. */
  ghost predicate OldestFirst(before: seq<Batch>, after: seq<Batch>, store: nat, fabric: string) {
    && |after| == |before|
    && (forall b :: 0 <= b < |before| ==>
          if InStock(before[b], store, fabric) then OnlyShorter(before[b], after[b]) else after[b] == before[b])
    && (forall i, j ::
          (&& 0 <= i < |before| && InStock(before[i], store, fabric)
           && 0 <= j < |before| && InStock(before[j], store, fabric)
           && Precedes(before, i, j) && after[j].current < before[j].current)
          ==> after[i].current == 0)
  }

  predicate OnlyShorter(before: Batch, after: Batch) {
    && 0 <= after.current <= before.current && before.reserved <= after.current
    && after == before.(current := after.current, status := if after.current == 0 then Depleted else before.status)
  }

  lemma DrainedIsOldestFirst(before: seq<Batch>, after: seq<Batch>, store: nat, fabric: string, need: nat)
    requires var rows := FifoRows(before, store, fabric);
             && RowsToDrain(before, rows) && need <= Fifo.Total(Balances(before, rows))
             && var left := Fifo.Left(Balances(before, rows), need);
                Fits(before, rows, left) && DrainedTo(before, after, rows, left)
    ensures OldestFirst(before, after, store, fabric)
  {
    var rows := FifoRows(before, store, fabric);
    var balances := Balances(before, rows);
    var left := Fifo.Left(balances, need);
    Fifo.TakesFit(balances, need);
    forall b: nat | b < |before|
      ensures if InStock(before[b], store, fabric) then OnlyShorter(before[b], after[b]) else after[b] == before[b]
    {
      assert InStock(before[b], store, fabric) <==> b in rows;
      if b in rows {
        var x :| 0 <= x < |rows| && rows[x] == b;
        Fifo.LeftAt(balances, need, x);
        assert after[rows[x]] == LeftWith(before[rows[x]], left[x]);
      }
    }
    forall i: nat, j: nat | i < |before| && j < |before|
        && InStock(before[i], store, fabric) && InStock(before[j], store, fabric)
        && Precedes(before, i, j) && after[j].current < before[j].current
      ensures after[i].current == 0
    {
      assert i in rows && j in rows;
      var x :| 0 <= x < |rows| && rows[x] == i;
      var y :| 0 <= y < |rows| && rows[y] == j;
      EarlierIsEmptied(before, after, rows, need, x, y);
    }
  }

  lemma EarlierIsEmptied(before: seq<Batch>, after: seq<Batch>, rows: seq<nat>, need: nat, x: nat, y: nat)
    requires RowsToDrain(before, rows) && InAgeOrder(before, rows) && x < |rows| && y < |rows|
    requires var balances := Balances(before, rows);
             need <= Fifo.Total(balances) && DrainedTo(before, after, rows, Fifo.Left(balances, need))
    requires Precedes(before, rows[x], rows[y]) && after[rows[y]].current < before[rows[y]].current
    ensures after[rows[x]].current == 0
  {
    var balances := Balances(before, rows);
    var left := Fifo.Left(balances, need);
    assert x < y;
    Fifo.LeftAt(balances, need, x);
    Fifo.LeftAt(balances, need, y);
    Fifo.DrainIsGreedy(balances, need, x, y);
    assert after[rows[x]] == LeftWith(before[rows[x]], left[x]);
    assert after[rows[y]] == LeftWith(before[rows[y]], left[y]);
  }

  lemma {:induction false} InsertTotal(batches: seq<Batch>, rows: seq<nat>, b: nat)
    requires b < |batches| && batches[b].current >= 0
    requires forall i :: 0 <= i < |rows| ==> rows[i] < |batches| && batches[rows[i]].current >= 0
    ensures var more := InsertByAge(batches, rows, b);
            && (forall i :: 0 <= i < |more| ==> more[i] < |batches| && batches[more[i]].current >= 0)
            && Fifo.Total(Balances(batches, more)) == Fifo.Total(Balances(batches, rows)) + batches[b].current
  {
    InsertAdds(batches, rows, b);
    var more := InsertByAge(batches, rows, b);
    forall i | 0 <= i < |more|
      ensures more[i] < |batches| && batches[more[i]].current >= 0
    {
      assert more[i] in more;
      if more[i] in rows {
        var k :| 0 <= k < |rows| && rows[k] == more[i];
      }
    }
    if rows == [] || Older(batches, rows[|rows| - 1], b) {
      AppendTotal(batches, rows, b);
    } else {
      var front, last := rows[..|rows| - 1], rows[|rows| - 1];
      InsertTotal(batches, front, b);
      AppendTotal(batches, InsertByAge(batches, front, b), last);
      AppendTotal(batches, front, last);
      assert rows == front + [last];
    }
  }

  lemma {:induction false} AppendTotal(batches: seq<Batch>, rows: seq<nat>, b: nat)
    requires b < |batches| && batches[b].current >= 0
    requires forall i :: 0 <= i < |rows| ==> rows[i] < |batches| && batches[rows[i]].current >= 0
    ensures Fifo.Total(Balances(batches, rows + [b])) == Fifo.Total(Balances(batches, rows)) + batches[b].current
  {
    var whole := Balances(batches, rows + [b]);
    assert whole[..|whole| - 1] == Balances(batches, rows);
  }

  lemma {:induction false} RowsHoldTheStock(batches: seq<Batch>, store: nat, fabric: string, n: nat)
    requires n <= |batches| && forall b :: 0 <= b < |batches| ==> batches[b].current >= 0
    ensures var rows := RowsAmong(batches, store, fabric, n);
            && (forall i :: 0 <= i < |rows| ==> rows[i] < |batches|)
            && Fifo.Total(Balances(batches, rows)) == Stocked(batches[..n], store, fabric)
  {
    if n > 0 {
      RowsHoldTheStock(batches, store, fabric, n - 1);
      assert batches[..n][..n - 1] == batches[..n - 1];
      if Eligible(batches[n - 1], store, fabric) {
        InsertTotal(batches, RowsAmong(batches, store, fabric, n - 1), n - 1);
      }
    }
  }

  /** Metres these takes took from a roll. */
  function TakenFrom(takes: seq<Take>, b: nat): int {
    if takes == [] then 0
    else
      TakenFrom(takes[..|takes| - 1], b)
      + if takes[|takes| - 1].batch == b then takes[|takes| - 1].quantity else 0
  }

  lemma {:induction false} TakenFirst(take: Take, takes: seq<Take>, b: nat)
    ensures TakenFrom([take] + takes, b) == TakenFrom(takes, b) + if take.batch == b then take.quantity else 0
  {
    if takes == [] {
      assert [take] + takes == [take] && [take][..0] == [];
    } else {
      TakenFirst(take, takes[..|takes| - 1], b);
      assert ([take] + takes)[..|takes|] == [take] + takes[..|takes| - 1];
    }
  }

  /** The takes a drain reports are what each roll lost. */
  lemma {:induction false} DrainReports(s: Tables, rows: seq<nat>, need: int, b: nat)
    requires forall i :: 0 <= i < |rows| ==> rows[i] < |s.batches|
    requires DrainRows(s, rows, need).Done? && b < |s.batches|
    ensures var r := DrainRows(s, rows, need);
            && |r.tables.batches| == |s.batches|
            && TakenFrom(r.value, b) == s.batches[b].current - r.tables.batches[b].current
    decreases |rows|
  {
    if need > 0 && rows != [] {
      var take := Min(need, s.batches[rows[0]].current);
      var t := Draw(s, rows[0], take).value;
      DrainReports(t, rows[1..], need - take, b);
      TakenFirst(Take(rows[0], take), DrainRows(t, rows[1..], need - take).value, b);
    }
  }

  /** FIFO on the columns: refused as short exactly when the store holds less of the fabric; otherwise
      the oldest rolls go first and the reported takes are what each roll lost. */
  lemma {:induction false} FifoIsOldestFirst(s: Tables, store: nat, fabric: string, need: nat)
    requires Kept(s)
    ensures var r := FifoConsume(s, store, fabric, need);
            && (r == Rejected(Insufficient) <==> Stocked(s.batches, store, fabric) < need)
            && (r.Done? ==>
                  && r.tables.holds == s.holds
                  && OldestFirst(s.batches, r.tables.batches, store, fabric)
                  && OnHand(s.batches) - OnHand(r.tables.batches) == need
                  && forall b :: 0 <= b < |s.batches| ==>
                       TakenFrom(r.value, b) == s.batches[b].current - r.tables.batches[b].current)
  {
    var rows := FifoRows(s.batches, store, fabric);
    FifoConsumeIs(s, store, fabric, need);
    RowsAreChecked(s);
    RowsHoldTheStock(s.batches, store, fabric, |s.batches|);
    assert s.batches[..|s.batches|] == s.batches;
    DrainNeverShort(s, rows, need);
    var r := FifoConsume(s, store, fabric, need);
    if r.Done? {
      DrainedIsOldestFirst(s.batches, r.tables.batches, store, fabric, need);
      DrainLoses(s, rows, need);
      forall b: nat | b < |s.batches|
        ensures TakenFrom(r.value, b) == s.batches[b].current - r.tables.batches[b].current
      {
        DrainReports(s, rows, need, b);
      }
    }
  }

  lemma RowsAreChecked(s: Tables)
    requires Kept(s)
    ensures forall b :: 0 <= b < |s.batches| ==> RowChecked(s.batches[b])
  {
    forall b | 0 <= b < |s.batches|
      ensures RowChecked(s.batches[b])
    {
      assert RowFits(s, b);
    }
  }

  lemma {:induction false} DrainNeverShort(s: Tables, rows: seq<nat>, need: int)
    requires forall i :: 0 <= i < |rows| ==> rows[i] < |s.batches|
    ensures DrainRows(s, rows, need) != Rejected(Insufficient)
    decreases |rows|
  {
    if need > 0 && rows != [] {
      var take := Min(need, s.batches[rows[0]].current);
      if Draw(s, rows[0], take).Some? {
        DrainNeverShort(Draw(s, rows[0], take).value, rows[1..], need - take);
      }
    }
  }

  lemma {:induction false} OnHandAfter(batches: seq<Batch>, b: nat, row: Batch)
    requires b < |batches|
    ensures OnHand(batches[b := row]) == OnHand(batches) - batches[b].current + row.current
  {
    var last, after := |batches| - 1, batches[b := row];
    if b == last {
      assert after[..last] == batches[..last];
    } else {
      OnHandAfter(batches[..last], b, row);
      assert after[..last] == batches[..last][b := row];
    }
  }

  lemma {:induction false} FirstDraw(s: Tables, rows: seq<nat>, take: int)
    requires RowsToDrain(s.batches, rows) && rows != []
    requires 0 < take <= s.batches[rows[0]].current && Draw(s, rows[0], take).Some?
    ensures var t := Draw(s, rows[0], take).value;
            && RowsToDrain(t.batches, rows[1..])
            && OnHand(t.batches) == OnHand(s.batches) - take
            && Fifo.Total(Balances(s.batches, rows))
               == s.batches[rows[0]].current + Fifo.Total(Balances(t.batches, rows[1..]))
  {
    hide OnHand, Fifo.Total, Draw;
    DrawIs(s, rows[0], take);
    var row := LeftWith(s.batches[rows[0]], s.batches[rows[0]].current - take);
    OnHandAfter(s.batches, rows[0], row);
    TailBalances(s, Draw(s, rows[0], take).value, rows, row);
    Fifo.TotalFromFront(Balances(s.batches, rows));
  }

  lemma {:induction false} DrainLoses(s: Tables, rows: seq<nat>, need: nat)
    requires RowsToDrain(s.batches, rows) && DrainRows(s, rows, need).Done?
    ensures OnHand(s.batches) - OnHand(DrainRows(s, rows, need).tables.batches)
         == Min(need, Fifo.Total(Balances(s.batches, rows)))
    decreases |rows|
  {
    hide OnHand, Draw;
    if need > 0 && rows != [] {
      var take := Min(need, s.batches[rows[0]].current);
      FirstDraw(s, rows, take);
      DrainLoses(Draw(s, rows[0], take).value, rows[1..], need - take);
    }
  }

  // ---- chosen rolls ----

  /** Every allocation is of a positive length from an available roll of the store, and each roll keeps
      what is reserved on it after all that is allocated from it. */
  predicate AllDrawable(batches: seq<Batch>, store: nat, allocations: seq<Take>) {
    forall i :: 0 <= i < |allocations| ==>
      allocations[i].quantity > 0 && Drawable(batches, store, allocations[i].batch, allocations)
  }

  predicate Drawable(batches: seq<Batch>, store: nat, b: nat, allocations: seq<Take>) {
    && b < |batches| && batches[b].store == store && batches[b].status == Available
    && batches[b].current - TakenFrom(allocations, b) >= batches[b].reserved
  }

  /** A roll after a total was drawn from it. */
  function DrawnBy(row: Batch, taken: int): Batch {
    if taken == 0 then row
    else row.(current := row.current - taken, status := if row.current == taken then Depleted else row.status)
  }

  lemma {:induction false} TakenIsNonNegative(allocations: seq<Take>, b: nat)
    requires forall i :: 0 <= i < |allocations| ==> allocations[i].quantity > 0
    ensures TakenFrom(allocations, b) >= 0
    ensures TakenFrom(allocations, b) == 0 <==> forall i :: 0 <= i < |allocations| ==> allocations[i].batch != b
  {
    if allocations != [] {
      var front := allocations[..|allocations| - 1];
      TakenIsNonNegative(front, b);
      assert forall i :: 0 <= i < |front| ==> allocations[i] == front[i];
    }
  }

  /** Explicit allocation succeeds exactly when every roll can give all that is allocated from it
      together; then each roll has lost exactly that, and the allocations are the reported takes. */
  lemma {:induction false} ExplicitExactlyWhen(s: Tables, store: nat, allocations: seq<Take>)
    requires Kept(s)
    ensures var r := ConsumeExplicit(s, store, allocations);
            && (r.Done? <==> AllDrawable(s.batches, store, allocations))
            && (r.Done? ==>
                  && r.value == allocations && r.tables.holds == s.holds && |r.tables.batches| == |s.batches|
                  && forall b :: 0 <= b < |s.batches| ==>
                       r.tables.batches[b] == DrawnBy(s.batches[b], TakenFrom(allocations, b)))
    decreases |allocations|
  {
    if allocations != [] {
      var front := allocations[..|allocations| - 1];
      RowsAreChecked(s);
      ExplicitExactlyWhen(s, store, front);
      DrawableSplits(s.batches, store, allocations);
      if AllDrawable(s.batches, store, front) {
        LastAllocation(s, store, allocations);
      }
    }
  }

  lemma {:induction false} DrawableSplits(batches: seq<Batch>, store: nat, allocations: seq<Take>)
    requires allocations != []
    ensures var front, a := allocations[..|allocations| - 1], allocations[|allocations| - 1];
            AllDrawable(batches, store, allocations) <==>
              AllDrawable(batches, store, front) && a.quantity > 0 && Drawable(batches, store, a.batch, allocations)
  {
    var front, a := allocations[..|allocations| - 1], allocations[|allocations| - 1];
    forall i | 0 <= i < |front|
      ensures AllDrawable(batches, store, allocations) ==> Drawable(batches, store, front[i].batch, front)
      ensures AllDrawable(batches, store, front) && front[i].batch != a.batch ==>
                Drawable(batches, store, allocations[i].batch, allocations)
    {
      assert allocations[i] == front[i];
    }
    assert AllDrawable(batches, store, front) ==>
             forall i :: 0 <= i < |front| ==> allocations[i].quantity == front[i].quantity > 0;
    assert AllDrawable(batches, store, allocations) ==>
             forall i :: 0 <= i < |front| ==> allocations[i].quantity == front[i].quantity;
  }

  lemma {:induction false} NextAllocationIs(row: Batch, t: Tables, takes: seq<Take>, store: nat, a: Take, taken: int)
    requires a.batch < |t.batches| && t.batches[a.batch] == DrawnBy(row, taken)
    requires RowChecked(row) && taken >= 0
    requires taken > 0 ==> row.store == store && row.status == Available && row.current - taken >= row.reserved
    ensures var r := NextAllocation(t, takes, store, a);
            && (r.Done? <==> a.quantity > 0 && row.store == store && row.status == Available
                             && row.current - (taken + a.quantity) >= row.reserved)
            && (r.Done? ==>
                  && r.value == takes + [a] && r.tables.holds == t.holds
                  && r.tables.batches == t.batches[a.batch := DrawnBy(row, taken + a.quantity)])
  {
  }

  lemma {:induction false} LastAllocation(s: Tables, store: nat, allocations: seq<Take>)
    requires forall b :: 0 <= b < |s.batches| ==> RowChecked(s.batches[b])
    requires allocations != [] && AllDrawable(s.batches, store, allocations[..|allocations| - 1])
    requires var front := allocations[..|allocations| - 1];
             var r := ConsumeExplicit(s, store, front);
             && r.Done? && r.value == front && r.tables.holds == s.holds && |r.tables.batches| == |s.batches|
             && forall b :: 0 <= b < |s.batches| ==>
                  r.tables.batches[b] == DrawnBy(s.batches[b], TakenFrom(front, b))
    ensures var a := allocations[|allocations| - 1];
            var r := ConsumeExplicit(s, store, allocations);
            && (r.Done? <==> a.quantity > 0 && Drawable(s.batches, store, a.batch, allocations))
            && (r.Done? ==>
                  && r.value == allocations && r.tables.holds == s.holds && |r.tables.batches| == |s.batches|
                  && forall b :: 0 <= b < |s.batches| ==>
                       r.tables.batches[b] == DrawnBy(s.batches[b], TakenFrom(allocations, b)))
  {
    var front, a := allocations[..|allocations| - 1], allocations[|allocations| - 1];
    var t := ConsumeExplicit(s, store, front).tables;
    assert front + [a] == allocations;
    hide ConsumeExplicit, RowChecked, DrawnBy;
    if a.batch < |s.batches| {
      hide NextAllocation;
      TakenIsNonNegative(front, a.batch);
      NextAllocationIs(s.batches[a.batch], t, front, store, a, TakenFrom(front, a.batch));
    }
  }

  // ---- reservations of a checkout ----

  /** The reservations a checkout asks for, in the order of its garments. */
  function HoldsFor(garments: seq<Garment>): seq<Hold> {
    if garments == [] then []
    else
      var last := garments[|garments| - 1];
      HoldsFor(garments[..|garments| - 1])
      + if last.roll.Some? then [Hold(last.roll.value, last.item, last.meters, Open)] else []
  }

  /** After a checkout the reservations are those before it and then, garment by garment, its own: each
      for its own item, on its own roll. */
  lemma {:induction false} CheckoutPlacesItsHolds(s: Tables, store: nat, garments: seq<Garment>)
    requires ReserveAll(s, store, garments).Done?
    ensures ReserveAll(s, store, garments).tables.holds == s.holds + HoldsFor(garments)
    decreases |garments|
  {
    if garments == [] {
      assert s.holds + [] == s.holds;
    } else {
      var front := garments[..|garments| - 1];
      CheckoutPlacesItsHolds(s, store, front);
      assert s.holds + HoldsFor(front) + [] == s.holds + HoldsFor(front);
    }
  }

  // ---- what a request changes ----

  function TotalTaken(takes: seq<Take>): int {
    if takes == [] then 0 else TotalTaken(takes[..|takes| - 1]) + takes[|takes| - 1].quantity
  }

  function MetresOf(f: Fabric): int {
    match f
    case Oldest(_, quantity) => if quantity > 0 then quantity else 0
    case Chosen(allocations) => TotalTaken(allocations)
  }

  /** Metres an order asks for. */
  function Requested(fabrics: seq<Fabric>): int {
    if fabrics == [] then 0 else Requested(fabrics[..|fabrics| - 1]) + MetresOf(fabrics[|fabrics| - 1])
  }

  function NamedFrom(f: Fabric, b: nat): int {
    if f.Oldest? then 0 else TakenFrom(f.allocations, b)
  }

  /** Metres an order asks for from a roll by name. */
  function ChosenFrom(fabrics: seq<Fabric>, b: nat): int {
    if fabrics == [] then 0 else ChosenFrom(fabrics[..|fabrics| - 1], b) + NamedFrom(fabrics[|fabrics| - 1], b)
  }

  predicate AsksFor(fabrics: seq<Fabric>, fabric: string) {
    exists i :: 0 <= i < |fabrics| && fabrics[i].Oldest? && fabrics[i].fabric == fabric
  }

  /** Metres of an item's open reservations. */
  function OpenMeters(holds: seq<Hold>, item: nat): int {
    if holds == [] then 0
    else
      var last := holds[|holds| - 1];
      OpenMeters(holds[..|holds| - 1], item) + if last.item == item && last.status == Open then last.meters else 0
  }

  /** The tables with these changes on hand, in the purchases logged and in the adjustments logged. */
  predicate Changed(s: Tables, t: Tables, metres: int, bought: int, corrected: int) {
    && OnHand(t.batches) == OnHand(s.batches) + metres
    && Metres(t.log, PurchaseIn) == Metres(s.log, PurchaseIn) + bought
    && Adjusted(t.log) == Adjusted(s.log) + corrected
  }

  lemma {:induction false} LogAfter(log: seq<Movement>, m: Movement)
    ensures Metres(log + [m], PurchaseIn) == Metres(log, PurchaseIn) + if m.kind == PurchaseIn then m.quantity else 0
    ensures Adjusted(log + [m]) == Adjusted(log) + if m.kind == Adjustment then m.next - m.prev else 0
  {
    assert (log + [m])[..|log|] == log;
  }

  lemma {:induction false} DrawChanges(s: Tables, b: nat, quantity: int)
    requires b < |s.batches| && Draw(s, b, quantity).Some?
    ensures Changed(s, Draw(s, b, quantity).value, -quantity, 0, 0)
  {
    var next := s.batches[b].current - quantity;
    LogAfter(s.log, Movement(b, OrderOut, quantity, s.batches[b].current, next, None));
    OnHandAfter(s.batches, b, Draw(s, b, quantity).value.batches[b]);
  }

  /** No purchase and no adjustment has been logged. */
  predicate OnlyMoves(before: seq<Movement>, after: seq<Movement>) {
    Metres(after, PurchaseIn) == Metres(before, PurchaseIn) && Adjusted(after) == Adjusted(before)
  }

  lemma {:induction false} DrawOnlyMoves(s: Tables, b: nat, quantity: int)
    requires b < |s.batches| && Draw(s, b, quantity).Some?
    ensures var t := Draw(s, b, quantity).value; OnlyMoves(s.log, t.log) && |t.batches| == |s.batches|
  {
    DrawChanges(s, b, quantity);
  }

  lemma {:induction false} MovesAdd(a: seq<Movement>, b: seq<Movement>, c: seq<Movement>)
    requires OnlyMoves(a, b) && OnlyMoves(b, c)
    ensures OnlyMoves(a, c)
  {
  }

  lemma {:induction false} DrainOnlyMoves(s: Tables, rows: seq<nat>, need: int)
    requires forall i :: 0 <= i < |rows| ==> rows[i] < |s.batches|
    requires DrainRows(s, rows, need).Done?
    ensures OnlyMoves(s.log, DrainRows(s, rows, need).tables.log)
    decreases |rows|
  {
    if need > 0 && rows != [] {
      hide OnlyMoves;
      var take := Min(need, s.batches[rows[0]].current);
      DrawOnlyMoves(s, rows[0], take);
      var t := Draw(s, rows[0], take).value;
      DrainOnlyMoves(t, rows[1..], need - take);
      MovesAdd(s.log, t.log, DrainRows(t, rows[1..], need - take).tables.log);
    }
  }

  lemma {:induction false} ExplicitChanges(s: Tables, store: nat, allocations: seq<Take>)
    requires ConsumeExplicit(s, store, allocations).Done?
    ensures Changed(s, ConsumeExplicit(s, store, allocations).tables, -TotalTaken(allocations), 0, 0)
    decreases |allocations|
  {
    if allocations != [] {
      var front, a := allocations[..|allocations| - 1], allocations[|allocations| - 1];
      ExplicitChanges(s, store, front);
      DrawChanges(ConsumeExplicit(s, store, front).tables, a.batch, a.quantity);
    }
  }

  lemma {:induction false} FifoChanges(s: Tables, store: nat, fabric: string, need: int)
    requires Kept(s) && FifoConsume(s, store, fabric, need).Done?
    ensures Changed(s, FifoConsume(s, store, fabric, need).tables, if need > 0 then -need else 0, 0, 0)
  {
    EligibleRows(s.batches, store, fabric);
    DrainOnlyMoves(s, FifoRows(s.batches, store, fabric), need);
    if need > 0 {
      FifoIsOldestFirst(s, store, fabric, need);
    }
  }

  /** No roll has gained, rolls of other stores are as they were, and so is what tells rolls apart. */
  predicate OnlyLost(before: seq<Batch>, after: seq<Batch>, store: nat) {
    && |after| == |before|
    && forall b :: 0 <= b < |before| ==>
         && after[b].current <= before[b].current
         && after[b].store == before[b].store && after[b].fabric == before[b].fabric
         && (before[b].store != store ==> after[b] == before[b])
  }

  lemma {:induction false} FabricDraws(s: Tables, store: nat, f: Fabric)
    requires Kept(s)
    requires if f.Oldest? then FifoConsume(s, store, f.fabric, f.quantity).Done?
             else ConsumeExplicit(s, store, f.allocations).Done?
    ensures var t := if f.Oldest? then FifoConsume(s, store, f.fabric, f.quantity).tables
                     else ConsumeExplicit(s, store, f.allocations).tables;
            && Changed(s, t, -MetresOf(f), 0, 0) && OnlyLost(s.batches, t.batches, store)
            && forall b :: 0 <= b < |s.batches| && (f.Oldest? ==> f.fabric != s.batches[b].fabric) ==>
                 s.batches[b].current - t.batches[b].current == NamedFrom(f, b)
  {
    hide Kept, FifoConsume, ConsumeExplicit, OnHand, Metres, Adjusted;
    if f.Oldest? {
      FifoChanges(s, store, f.fabric, f.quantity);
      OldestDraws(s, store, f.fabric, f.quantity);
    } else {
      ExplicitChanges(s, store, f.allocations);
      ExplicitExactlyWhen(s, store, f.allocations);
      forall b: nat | b < |s.batches|
        ensures TakenFrom(f.allocations, b) >= 0
        ensures s.batches[b].store != store ==> TakenFrom(f.allocations, b) == 0
      {
        TakenIsNonNegative(f.allocations, b);
        OnlyItsStore(s.batches, store, f.allocations, b);
      }
    }
  }

  lemma {:induction false} OldestDraws(s: Tables, store: nat, fabric: string, need: int)
    requires Kept(s) && FifoConsume(s, store, fabric, need).Done?
    ensures var t := FifoConsume(s, store, fabric, need).tables;
            && OnlyLost(s.batches, t.batches, store)
            && forall b :: 0 <= b < |s.batches| && s.batches[b].fabric != fabric ==> t.batches[b] == s.batches[b]
  {
    if need > 0 {
      hide Kept, FifoConsume;
      FifoIsOldestFirst(s, store, fabric, need);
    } else {
      EligibleRows(s.batches, store, fabric);
    }
  }

  lemma {:induction false} OnlyItsStore(batches: seq<Batch>, store: nat, allocations: seq<Take>, b: nat)
    requires b < |batches|
    requires forall i :: 0 <= i < |allocations| ==>
               allocations[i].batch < |batches| && batches[allocations[i].batch].store == store
    ensures batches[b].store != store ==> TakenFrom(allocations, b) == 0
  {
    if allocations != [] {
      OnlyItsStore(batches, store, allocations[..|allocations| - 1], b);
    }
  }

  /** A roll of a fabric the order does not leave to the service lost what the order names from it. */
  predicate NamedLost(before: seq<Batch>, after: seq<Batch>, fabrics: seq<Fabric>) {
    && |after| == |before|
    && forall b :: 0 <= b < |before| && !AsksFor(fabrics, before[b].fabric) ==>
         before[b].current - after[b].current == ChosenFrom(fabrics, b)
  }

  lemma {:induction false} LastFabric(s: Tables, store: nat, fabrics: seq<Fabric>)
    requires fabrics != [] && CreateOrder(s, store, fabrics).Done?
    ensures var before, f := CreateOrder(s, store, fabrics[..|fabrics| - 1]), fabrics[|fabrics| - 1];
            && before.Done?
            && (f.Oldest? ==>
                  var r := FifoConsume(before.tables, store, f.fabric, f.quantity);
                  r.Done? && r.tables == CreateOrder(s, store, fabrics).tables)
            && (f.Chosen? ==>
                  var r := ConsumeExplicit(before.tables, store, f.allocations);
                  r.Done? && r.tables == CreateOrder(s, store, fabrics).tables)
  {
    hide FifoConsume, ConsumeExplicit;
  }

  /** A new order takes exactly what it asks for: from the store it is placed in, from rolls named in it
      what it names, and otherwise only from rolls of a fabric it asks for. */
  lemma {:induction false} OrderDrawsExactly(s: Tables, store: nat, fabrics: seq<Fabric>)
    requires Kept(s) && CreateOrder(s, store, fabrics).Done?
    ensures var t := CreateOrder(s, store, fabrics).tables;
            && Changed(s, t, -Requested(fabrics), 0, 0)
            && OnlyLost(s.batches, t.batches, store) && NamedLost(s.batches, t.batches, fabrics)
    decreases |fabrics|
  {
    hide Kept, FifoConsume, ConsumeExplicit, CreateOrder, Changed, OnlyLost, NamedLost, NamedFrom, MetresOf, Requested;
    if fabrics == [] {
      NothingOrdered(s, store);
    } else {
      var front, f := fabrics[..|fabrics| - 1], fabrics[|fabrics| - 1];
      LastFabric(s, store, fabrics);
      OrderDrawsExactly(s, store, front);
      CreateOrderKeeps(s, store, front);
      var t, u := CreateOrder(s, store, front).tables, CreateOrder(s, store, fabrics).tables;
      FabricDraws(t, store, f);
      OneMoreFabric(s, t, u, store, fabrics);
    }
  }

  lemma {:induction false} NothingOrdered(s: Tables, store: nat)
    ensures CreateOrder(s, store, []) == Done(s, ()) && Changed(s, s, -Requested([]), 0, 0)
    ensures OnlyLost(s.batches, s.batches, store) && NamedLost(s.batches, s.batches, [])
  {
  }

  lemma {:induction false} OneMoreFabric(s: Tables, t: Tables, u: Tables, store: nat, fabrics: seq<Fabric>)
    requires fabrics != []
    requires var front := fabrics[..|fabrics| - 1];
             && Changed(s, t, -Requested(front), 0, 0)
             && OnlyLost(s.batches, t.batches, store) && NamedLost(s.batches, t.batches, front)
    requires var f := fabrics[|fabrics| - 1];
             && Changed(t, u, -MetresOf(f), 0, 0) && OnlyLost(t.batches, u.batches, store)
             && forall b :: 0 <= b < |t.batches| && (f.Oldest? ==> f.fabric != t.batches[b].fabric) ==>
                  t.batches[b].current - u.batches[b].current == NamedFrom(f, b)
    ensures Changed(s, u, -Requested(fabrics), 0, 0)
    ensures OnlyLost(s.batches, u.batches, store) && NamedLost(s.batches, u.batches, fabrics)
  {
    hide OnHand, Metres, Adjusted, MetresOf, NamedFrom, AsksFor;
    forall b | 0 <= b < |s.batches| && !AsksFor(fabrics, s.batches[b].fabric)
      ensures s.batches[b].current - u.batches[b].current == ChosenFrom(fabrics, b)
    {
      AsksForSplits(fabrics, s.batches[b].fabric);
    }
  }

  lemma {:induction false} AsksForSplits(fabrics: seq<Fabric>, fabric: string)
    requires fabrics != [] && !AsksFor(fabrics, fabric)
    ensures var front, f := fabrics[..|fabrics| - 1], fabrics[|fabrics| - 1];
            !AsksFor(front, fabric) && (f.Oldest? ==> f.fabric != fabric)
  {
    assert forall i :: 0 <= i < |fabrics| - 1 ==> fabrics[..|fabrics| - 1][i] == fabrics[i];
  }

  /** Metres by which a request changes the stock on hand, from the request and the tables it meets. */
  function Change(s: Tables, stores: set<nat>, op: Op): int {
    match op
    case OpCreateBatch(store, fabric, code, quantity, bought) => Purchase(s, op)
    case OpAdjust(store, batch, delta) => Correction(s, op)
    case OpCreateOrder(store, fabrics) => if CreateOrder(s, store, fabrics).Done? then -Requested(fabrics) else 0
    case OpCut(item) => -OpenMeters(s.holds, item)
    case _ => 0
  }

  /** Metres an accepted purchase brings. */
  function Purchase(s: Tables, op: Op): int {
    if op.OpCreateBatch? && CreateBatch(s, op.store, op.fabric, op.code, op.quantity, op.bought).Done?
    then op.quantity else 0
  }

  /** Metres an accepted adjustment corrects by. */
  function Correction(s: Tables, op: Op): int {
    if op.OpAdjust? && AdjustBatch(s, op.store, op.batch, op.delta).Done? then op.delta else 0
  }

  lemma {:induction false} MoveChanges(s: Tables, b: nat, kind: Kind, quantity: int, next: int, status: Status)
    requires b < |s.batches| && kind != PurchaseIn && Move(s, b, kind, quantity, next, status).Some?
    ensures var t := Move(s, b, kind, quantity, next, status).value;
            var metres := next - s.batches[b].current;
            Changed(s, t, metres, 0, if kind == Adjustment then metres else 0)
  {
    LogAfter(s.log, Movement(b, kind, quantity, s.batches[b].current, next, None));
    OnHandAfter(s.batches, b, Move(s, b, kind, quantity, next, status).value.batches[b]);
  }

  lemma {:induction false} ReceiveChanges(s: Tables, row: Batch, kind: Kind, quantity: int)
    requires kind != Adjustment && Receive(s, row, kind, quantity).Some? && row.current == quantity
    ensures var t := Receive(s, row, kind, quantity).value;
            Changed(s, t, quantity, if kind == PurchaseIn then quantity else 0, 0)
  {
    LogAfter(s.log, Movement(|s.batches|, kind, quantity, 0, quantity, None));
    assert (s.batches + [row])[..|s.batches|] == s.batches;
  }

  lemma {:induction false} TransferChanges(s: Tables, stores: set<nat>, src: nat, dest: nat, quantity: int)
    requires Transfer(s, stores, src, dest, quantity).Done?
    ensures Changed(s, Transfer(s, stores, src, dest, quantity).tables, 0, 0, 0)
  {
    hide OnHand, Metres, Adjusted, Receive, Move, RowChecked, MovementChecked;
    var source := s.batches[src];
    var next := source.current - quantity;
    MoveChanges(s, src, TransferOut, quantity, next, StatusAfterDraw(source, next));
    var t := Move(s, src, TransferOut, quantity, next, StatusAfterDraw(source, next)).value;
    FoundIsThere(t.batches, dest, source.code);
    match FindBatch(t.batches, dest, source.code)
    case Some(b) => MoveChanges(t, b, Kind.TransferIn, quantity, t.batches[b].current + quantity, Available);
    case None =>
      ReceiveChanges(t, Batch(dest, source.fabric, source.code, quantity, 0, DEFAULT_MIN_USABLE, source.bought,
                              Available), Kind.TransferIn, quantity);
  }

  lemma {:induction false} CutAllChanges(s: Tables, ids: seq<nat>)
    requires HoldsPlaced(s) && (forall k :: 0 <= k < |ids| ==> ids[k] < |s.holds|) && CutAll(s, ids).Done?
    ensures var t := CutAll(s, ids).tables;
            && Changed(s, t, -MetersOf(s.holds, ids), 0, 0)
            && forall h :: 0 <= h < |s.holds| ==> t.holds[h].meters == s.holds[h].meters
  {
    if ids != [] {
      hide MetersOf;
      var front, h := ids[..|ids| - 1], ids[|ids| - 1];
      CutAllChanges(s, front);
      var t := CutAll(s, front).tables;
      var b := t.holds[h].batch;
      var u := CutHold(t, h).value;
      LogAfter(t.log, u.log[|t.log|]);
      OnHandAfter(t.batches, b, u.batches[b]);
      assert MetersOf(s.holds, ids) == MetersOf(s.holds, front) + s.holds[h].meters;
    }
  }

  lemma {:induction false} OpenHoldsMeters(holds: seq<Hold>, item: nat)
    ensures MetersOf(holds, OpenHolds(holds, {item})) == OpenMeters(holds, item)
  {
    if holds != [] {
      var front, ids := holds[..|holds| - 1], OpenHolds(holds[..|holds| - 1], {item});
      OpenHoldsMeters(front, item);
      MetersInFront(holds, ids);
      if holds[|holds| - 1].status.Open? && holds[|holds| - 1].item == item {
        assert (ids + [|holds| - 1])[..|ids|] == ids;
      } else {
        assert ids + [] == ids;
      }
    }
  }

  lemma {:induction false} MetersInFront(holds: seq<Hold>, ids: seq<nat>)
    requires holds != [] && forall k :: 0 <= k < |ids| ==> ids[k] < |holds| - 1
    ensures MetersOf(holds[..|holds| - 1], ids) == MetersOf(holds, ids)
  {
    if ids != [] {
      MetersInFront(holds, ids[..|ids| - 1]);
    }
  }

  lemma {:induction false} CheckoutChanges(s: Tables, store: nat, garments: seq<Garment>)
    requires Kept(s) && YieldsPositive(garments) && ReserveAll(s, store, garments).Done?
    ensures Changed(s, ReserveAll(s, store, garments).tables, 0, 0, 0)
  {
    ReserveLoopExactlyWhen(s, store, garments);
    SameOnHand(s.batches, ReserveAll(s, store, garments).tables.batches);
  }

  lemma {:induction false} SameOnHand(before: seq<Batch>, after: seq<Batch>)
    requires |before| == |after| && forall b :: 0 <= b < |before| ==> after[b].current == before[b].current
    ensures OnHand(after) == OnHand(before)
  {
    if before != [] {
      SameOnHand(before[..|before| - 1], after[..|after| - 1]);
    }
  }

  lemma {:induction false} ReleaseAllChanges(s: Tables, ids: seq<nat>)
    requires HoldsPlaced(s) && (forall k :: 0 <= k < |ids| ==> ids[k] < |s.holds|) && ReleaseAll(s, ids).Done?
    ensures Changed(s, ReleaseAll(s, ids).tables, 0, 0, 0)
  {
    if ids != [] {
      var front, h := ids[..|ids| - 1], ids[|ids| - 1];
      ReleaseAllChanges(s, front);
      var t := ReleaseAll(s, front).tables;
      OnHandAfter(t.batches, t.holds[h].batch, ReleaseHold(t, h).value.batches[t.holds[h].batch]);
    }
  }

  lemma {:induction false} PurchaseChanges(s: Tables, op: Op)
    requires op.OpCreateBatch? && CreateBatch(s, op.store, op.fabric, op.code, op.quantity, op.bought).Done?
    ensures Changed(s, CreateBatch(s, op.store, op.fabric, op.code, op.quantity, op.bought).tables,
                    op.quantity, op.quantity, 0)
  {
    hide Changed, Receive;
    ReceiveChanges(s, Batch(op.store, op.fabric, op.code, op.quantity, 0, DEFAULT_MIN_USABLE, op.bought, Available),
                   PurchaseIn, op.quantity);
  }

  lemma {:induction false} AdjustmentChanges(s: Tables, store: nat, b: nat, delta: int)
    requires AdjustBatch(s, store, b, delta).Done?
    ensures Changed(s, AdjustBatch(s, store, b, delta).tables, delta, 0, delta)
  {
    hide Changed, Move;
    var next := s.batches[b].current + delta;
    MoveChanges(s, b, Adjustment, Abs(delta), next, if next == 0 then Depleted else Available);
  }

  lemma {:induction false} CutChanges(s: Tables, item: nat)
    requires Kept(s)
    ensures ConsumeForItem(s, item).Done?
    ensures Changed(s, ConsumeForItem(s, item).tables, -OpenMeters(s.holds, item), 0, 0)
  {
    hide Changed, CutAll, LogFits, RowFits, ItemFits, TransfersCancel, MetersOf, OpenMeters;
    ConsumeForItemSucceeds(s, item);
    CutAllChanges(s, OpenHolds(s.holds, {item}));
    OpenHoldsMeters(s.holds, item);
  }

  /** Every request changes the stock on hand, the purchases and the adjustments by what it says. */
  lemma {:induction false} RequestChanges(s: Tables, stores: set<nat>, op: Op)
    requires Kept(s)
    ensures Changed(s, Apply(s, stores, op), Change(s, stores, op), Purchase(s, op), Correction(s, op))
  {
    hide OnHand, Metres, Adjusted, CreateBatch, AdjustBatch, Transfer, CreateOrder, ReserveAll, CutAll, ReleaseAll;
    match op
    case OpCreateBatch(store, fabric, code, quantity, bought) =>
      if CreateBatch(s, store, fabric, code, quantity, bought).Done? {
        PurchaseChanges(s, op);
      }
    case OpAdjust(store, b, delta) =>
      if AdjustBatch(s, store, b, delta).Done? {
        AdjustmentChanges(s, store, b, delta);
      }
    case OpTransfer(src, dest, quantity) =>
      if Transfer(s, stores, src, dest, quantity).Done? {
        TransferChanges(s, stores, src, dest, quantity);
      }
    case OpCreateOrder(store, fabrics) =>
      if CreateOrder(s, store, fabrics).Done? {
        OrderDrawsExactly(s, store, fabrics);
      }
    case OpCheckout(store, garments) =>
      if YieldsPositive(garments) && ReserveAll(s, store, garments).Done? {
        CheckoutChanges(s, store, garments);
      }
    case OpCut(item) => CutChanges(s, item);
    case OpRelease(items) =>
      ReleaseForOrderSucceeds(s, items);
      ReleaseAllChanges(s, OpenHolds(s.holds, items));
  }

  function SumChanges(trace: seq<Tables>, ops: seq<Op>, stores: set<nat>): int
    requires |trace| == |ops| + 1
  {
    if ops == [] then 0
    else
      var n := |ops| - 1;
      SumChanges(trace[..n + 1], ops[..n], stores) + Change(trace[n], stores, ops[n])
  }

  function SumPurchases(trace: seq<Tables>, ops: seq<Op>): int
    requires |trace| == |ops| + 1
  {
    if ops == [] then 0
    else
      var n := |ops| - 1;
      SumPurchases(trace[..n + 1], ops[..n]) + Purchase(trace[n], ops[n])
  }

  function SumCorrections(trace: seq<Tables>, ops: seq<Op>): int
    requires |trace| == |ops| + 1
  {
    if ops == [] then 0
    else
      var n := |ops| - 1;
      SumCorrections(trace[..n + 1], ops[..n]) + Correction(trace[n], ops[n])
  }

  /** Over every run: the metres on hand are what the accepted requests add up to, the purchases logged
      are the accepted purchases, and the adjustments logged are the accepted deltas, with their sign. */
  lemma {:induction false} EveryRunAnswersItsRequests(trace: seq<Tables>, ops: seq<Op>, stores: set<nat>)
    requires Reached(trace, ops, stores)
    ensures var s := trace[|ops|];
            && OnHand(s.batches) == SumChanges(trace, ops, stores)
            && Metres(s.log, PurchaseIn) == SumPurchases(trace, ops)
            && Adjusted(s.log) == SumCorrections(trace, ops)
  {
    if ops != [] {
      hide Apply, Change, Purchase, Correction, OnHand, Metres, Adjusted, Kept;
      var n := |ops| - 1;
      EveryRunAnswersItsRequests(trace[..n + 1], ops[..n], stores);
      EveryRunKeepsTheStock(trace[..n + 1], ops[..n], stores);
      RequestChanges(trace[n], stores, ops[n]);
    }
  }
}
