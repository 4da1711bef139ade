/** The compliance self-check of a tenant's invoice chain. */
module Audit {
  import opened Basics
  import opened Decimal
  import opened Signing
  import opened EmbeddedFields
  import opened UblInvoice

  // `findChainBreak` (`zatca-hash.ts`) and `verifyChain` (`zatca.service.ts`).

  const GENESIS_PIH :=
    "NWZlY2ViNjZmZmM4NmYzOGQ5NTI3ODZjNmQ2OTZjNzljMmRiYzIzOWRkNGU5MWI0NjcyOWQ3M2EyN2ZiNTdlOQ=="

  /** The library functions: canonicalisation, which throws (None) on what is not XML, and the digest. */
  datatype Crypto = Crypto(canonicalize: string -> Option<string>, hash: string -> Markup)

  datatype Archive = Missing | Unreadable | Stored(xml: string)

  /** A row as the check reads it, in ascending counter order. */
  datatype Row = Row(icv: int, number: string, invoiceHash: Option<string>, previousHash: Option<string>,
                     archive: Archive)

  datatype Report = Report(invoiceCount: nat, compliant: bool, chainIntact: bool, brokenAt: Option<string>,
                           hashMismatches: seq<string>, icvGaps: seq<int>, unverifiable: seq<string>)

  // ---- the three tests ----

  function Expected(rows: seq<Row>, i: nat): Option<string>
    requires i < |rows|
  {
    if i == 0 then Some(GENESIS_PIH) else rows[i - 1].invoiceHash
  }

  predicate LinkedAt(rows: seq<Row>, i: nat)
    requires i < |rows|
  {
    rows[i].previousHash == Expected(rows, i)
  }

  predicate Linked(rows: seq<Row>) {
    forall i: nat :: i < |rows| ==> LinkedAt(rows, i)
  }

  predicate FirstBreak(rows: seq<Row>, i: nat)
    requires i < |rows|
  {
    !LinkedAt(rows, i) && forall j: nat :: j < i ==> LinkedAt(rows, j)
  }

  predicate Continuous(rows: seq<Row>) {
    forall i :: 0 <= i < |rows| ==> rows[i].icv == i + 1
  }

  /** The canonical form of the archived document without its signature, if it can be had. */
  function Document(c: Crypto, archive: Archive): Option<string> {
    if archive.Stored? then c.canonicalize(Strip(archive.xml)) else None
  }

  predicate Mismatch(c: Crypto, row: Row) {
    Document(c, row.archive).Some? && row.invoiceHash != Some(c.hash(Document(c, row.archive).value))
  }

  predicate Rehashes(c: Crypto, rows: seq<Row>) {
    forall i :: 0 <= i < |rows| ==> !Mismatch(c, rows[i])
  }

  predicate Compliant(c: Crypto, rows: seq<Row>) {
    Linked(rows) && Continuous(rows) && Rehashes(c, rows)
  }

  // ---- the loops ----

  method FindChainBreak(rows: seq<Row>) returns (at: int)
    ensures at == -1 <==> Linked(rows)
    ensures at != -1 ==> 0 <= at < |rows| && FirstBreak(rows, at)
  {
    for i := 0 to |rows|
      invariant forall j: nat :: j < i ==> LinkedAt(rows, j)
    {
      var expected := if i == 0 then Some(GENESIS_PIH) else rows[i - 1].invoiceHash;
      if rows[i].previousHash != expected {
        assert !LinkedAt(rows, i);
        return i;
      }
    }
    return -1;
  }

  /** The counters that are not where they should be, in order. */
  function Gaps(rows: seq<Row>): seq<int> {
    if rows == [] then []
    else
      var last := rows[|rows| - 1];
      Gaps(rows[..|rows| - 1]) + if last.icv != |rows| then [last.icv] else []
  }

  function Mismatches(c: Crypto, rows: seq<Row>): seq<string> {
    if rows == [] then []
    else
      var last := rows[|rows| - 1];
      Mismatches(c, rows[..|rows| - 1]) + if Mismatch(c, last) then [last.number] else []
  }

  function Unverifiable(c: Crypto, rows: seq<Row>): seq<string> {
    if rows == [] then []
    else
      var last := rows[|rows| - 1];
      Unverifiable(c, rows[..|rows| - 1]) + if Document(c, last.archive).None? then [last.number] else []
  }

  lemma {:induction false} NoGapsWhen(rows: seq<Row>)
    ensures Gaps(rows) == [] <==> Continuous(rows)
  {
    if rows != [] {
      NoGapsWhen(rows[..|rows| - 1]);
    }
  }

  lemma {:induction false} NoMismatchesWhen(c: Crypto, rows: seq<Row>)
    ensures Mismatches(c, rows) == [] <==> Rehashes(c, rows)
  {
    if rows != [] {
      NoMismatchesWhen(c, rows[..|rows| - 1]);
    }
  }

  /** `picked` lists the chosen positions in ascending order, each once. */
  ghost predicate Picks(picked: seq<nat>, chosen: set<nat>) {
    && (forall i, j :: 0 <= i < j < |picked| ==> picked[i] < picked[j])
    && forall k: nat :: k in picked <==> k in chosen
  }

  lemma {:induction false} PickLast(picked: seq<nat>, before: set<nat>, n: nat, last: bool, chosen: set<nat>)
    requires Picks(picked, before) && forall k: nat :: k in before ==> k < n
    requires forall k: nat :: k in chosen <==> k in before || (k == n && last)
    ensures Picks(picked + if last then [n] else [], chosen)
  {
    forall i | 0 <= i < |picked|
      ensures picked[i] < n
    {
      assert picked[i] in picked;
    }
  }

  lemma {:induction false} PickNone(chosen: set<nat>)
    requires chosen == {}
    ensures Picks([], chosen)
  {
  }

  /** The rows that do not stand at their counter. */
  ghost function Misplaced(rows: seq<Row>): set<nat> {
    set k: nat | k < |rows| && rows[k].icv != k + 1
  }

  /** The rows whose archive can be read, stripped and canonicalised and then has another hash than the row. */
  ghost function Altered(c: Crypto, rows: seq<Row>): set<nat> {
    set k: nat | k < |rows| && rows[k].archive.Stored? && c.canonicalize(Strip(rows[k].archive.xml)).Some?
                 && rows[k].invoiceHash != Some(c.hash(c.canonicalize(Strip(rows[k].archive.xml)).value))
  }

  /** The rows whose archive is missing, unreadable or not XML. */
  ghost function Illegible(c: Crypto, rows: seq<Row>): set<nat> {
    set k: nat | k < |rows|
                 && (!rows[k].archive.Stored? || c.canonicalize(Strip(rows[k].archive.xml)).None?)
  }

  /** The reported gaps are the counters of exactly the misplaced rows. */
  lemma {:induction false} GapsAre(rows: seq<Row>) returns (at: seq<nat>)
    ensures Picks(at, Misplaced(rows))
    ensures |Gaps(rows)| == |at| && forall i :: 0 <= i < |at| ==> at[i] < |rows| && Gaps(rows)[i] == rows[at[i]].icv
  {
    hide Picks;
    if rows == [] {
      at := [];
      PickNone(Misplaced(rows));
    } else {
      var n := |rows| - 1;
      var front := GapsAre(rows[..n]);
      at := front + if rows[n].icv != n + 1 then [n] else [];
      PickLast(front, Misplaced(rows[..n]), n, rows[n].icv != n + 1, Misplaced(rows));
    }
  }

  /** The reported mismatches are the numbers of exactly the altered rows. */
  lemma {:induction false} MismatchesAre(c: Crypto, rows: seq<Row>) returns (at: seq<nat>)
    ensures Picks(at, Altered(c, rows))
    ensures |Mismatches(c, rows)| == |at|
    ensures forall i :: 0 <= i < |at| ==> at[i] < |rows| && Mismatches(c, rows)[i] == rows[at[i]].number
  {
    hide Picks;
    if rows == [] {
      at := [];
      PickNone(Altered(c, rows));
    } else {
      var n := |rows| - 1;
      var front := MismatchesAre(c, rows[..n]);
      at := front + if Mismatch(c, rows[n]) then [n] else [];
      PickLast(front, Altered(c, rows[..n]), n, Mismatch(c, rows[n]), Altered(c, rows));
    }
  }

  /** The unverifiable rows are exactly the illegible ones. */
  lemma {:induction false} UnverifiableAre(c: Crypto, rows: seq<Row>) returns (at: seq<nat>)
    ensures Picks(at, Illegible(c, rows))
    ensures |Unverifiable(c, rows)| == |at|
    ensures forall i :: 0 <= i < |at| ==> at[i] < |rows| && Unverifiable(c, rows)[i] == rows[at[i]].number
  {
    hide Picks;
    if rows == [] {
      at := [];
      PickNone(Illegible(c, rows));
    } else {
      var n := |rows| - 1;
      var front := UnverifiableAre(c, rows[..n]);
      at := front + if Document(c, rows[n].archive).None? then [n] else [];
      PickLast(front, Illegible(c, rows[..n]), n, Document(c, rows[n].archive).None?, Illegible(c, rows));
    }
  }

  /** The loop over the archives. */
  method Recheck(c: Crypto, rows: seq<Row>) returns (mismatches: seq<string>, unverifiable: seq<string>)
    ensures mismatches == Mismatches(c, rows) && unverifiable == Unverifiable(c, rows)
  {
    hide Strip;
    mismatches, unverifiable := [], [];
    for i := 0 to |rows|
      invariant mismatches == Mismatches(c, rows[..i])
      invariant unverifiable == Unverifiable(c, rows[..i])
    {
      assert rows[..i + 1][..i] == rows[..i];
      match rows[i].archive
      case Missing => unverifiable := unverifiable + [rows[i].number];
      case Unreadable => unverifiable := unverifiable + [rows[i].number];
      case Stored(xml) =>
        var unsigned := c.canonicalize(Strip(xml));
        if unsigned.None? {
          unverifiable := unverifiable + [rows[i].number];
        } else if Some(c.hash(unsigned.value)) != rows[i].invoiceHash {
          mismatches := mismatches + [rows[i].number];
        }
    }
    assert rows[..|rows|] == rows;
  }

  method VerifyChain(c: Crypto, rows: seq<Row>, storageEnabled: bool) returns (r: Report)
    ensures r.invoiceCount == |rows|
    ensures r.chainIntact <==> Linked(rows)
    ensures r.brokenAt.Some? <==> !Linked(rows)
    ensures r.brokenAt.Some? ==>
              exists i: nat :: i < |rows| && FirstBreak(rows, i) && rows[i].number == r.brokenAt.value
    ensures r.icvGaps == Gaps(rows)
    ensures r.hashMismatches == if storageEnabled then Mismatches(c, rows) else []
    ensures r.unverifiable == if storageEnabled then Unverifiable(c, rows) else []
    ensures r.compliant <==> Linked(rows) && Continuous(rows) && (storageEnabled ==> Rehashes(c, rows))
  {
    hide LinkedAt, Rehashes, Continuous, Mismatches, Unverifiable;
    var breakIndex := FindChainBreak(rows);
    var gaps: seq<int> := [];
    for i := 0 to |rows|
      invariant gaps == Gaps(rows[..i])
    {
      assert rows[..i + 1][..i] == rows[..i];
      if rows[i].icv != i + 1 {
        gaps := gaps + [rows[i].icv];
      }
    }
    assert rows[..|rows|] == rows;
    var mismatches: seq<string> := [];
    var unverifiable: seq<string> := [];
    if storageEnabled {
      mismatches, unverifiable := Recheck(c, rows);
    }
    NoGapsWhen(rows);
    NoMismatchesWhen(c, rows);
    var compliant := breakIndex == -1 && |gaps| == 0 && |mismatches| == 0;
    var brokenAt := if breakIndex == -1 then None else Some(rows[breakIndex].number);
    r := Report(|rows|, compliant, breakIndex == -1, brokenAt, mismatches, gaps, unverifiable);
  }

  // ---- what the tests catch: one row at a time ----

  /** Whatever one row is changed to, the chain passes exactly when the row keeps its counter and its
      predecessor's hash, keeps its own hash unless it is the last, and still matches its archive. */
  lemma {:induction false} EditPassesExactlyWhen(c: Crypto, rows: seq<Row>, k: nat, edited: Row)
    requires Compliant(c, rows) && k < |rows|
    ensures Compliant(c, rows[k := edited])
        <==> && edited.icv == rows[k].icv
             && edited.previousHash == rows[k].previousHash
             && (k + 1 < |rows| ==> edited.invoiceHash == rows[k].invoiceHash)
             && !Mismatch(c, edited)
  {
    var changed := rows[k := edited];
    assert LinkedAt(rows, k);
    if Compliant(c, changed) {
      assert LinkedAt(changed, k);
      assert changed[k].icv == k + 1;
      if k + 1 < |rows| {
        assert LinkedAt(changed, k + 1) && LinkedAt(rows, k + 1);
      }
      assert !Mismatch(c, changed[k]);
    }
    if && edited.icv == rows[k].icv && edited.previousHash == rows[k].previousHash
       && (k + 1 < |rows| ==> edited.invoiceHash == rows[k].invoiceHash) && !Mismatch(c, edited) {
      forall i: nat | i < |changed|
        ensures LinkedAt(changed, i)
      {
        assert LinkedAt(rows, i);
      }
    }
  }

  /** Positions of the rows left after some are deleted. */
  predicate Positions(kept: seq<nat>, n: nat) {
    && (forall i :: 0 <= i < |kept| ==> kept[i] < n)
    && forall i, j :: 0 <= i < j < |kept| ==> kept[i] < kept[j]
  }

  function Remaining(rows: seq<Row>, kept: seq<nat>): seq<Row>
    requires Positions(kept, |rows|)
  {
    seq(|kept|, i requires 0 <= i < |kept| => rows[kept[i]])
  }

  /** Whichever rows are deleted, the rest passes exactly when it is a beginning of the chain: only
      cutting off its end goes unnoticed. */
  lemma {:induction false} DeletionsPassExactlyWhen(c: Crypto, rows: seq<Row>, kept: seq<nat>)
    requires Compliant(c, rows) && Positions(kept, |rows|)
    ensures Compliant(c, Remaining(rows, kept)) <==> forall i :: 0 <= i < |kept| ==> kept[i] == i
  {
    var left := Remaining(rows, kept);
    if Compliant(c, left) {
      forall i | 0 <= i < |kept|
        ensures kept[i] == i
      {
        assert left[i].icv == rows[kept[i]].icv == kept[i] + 1;
      }
    }
    if forall i :: 0 <= i < |kept| ==> kept[i] == i {
      assert kept != [] ==> kept[|kept| - 1] == |kept| - 1;
      assert left == rows[..|kept|];
      forall i: nat | i < |left|
        ensures LinkedAt(left, i)
      {
        assert LinkedAt(rows, i);
      }
    }
  }

  ghost predicate Injective(c: Crypto) {
    forall a: string, b: string :: c.hash(a) == c.hash(b) ==> a == b
  }

  /** So a readable archive of a row that has successors cannot be given another document. */
  lemma {:induction false} ArchiveOfAnEarlierRowIsFixed(c: Crypto, rows: seq<Row>, k: nat, edited: Row)
    requires Injective(c) && k + 1 < |rows| && Compliant(c, rows) && Compliant(c, rows[k := edited])
    requires Document(c, rows[k].archive).Some? && Document(c, edited.archive).Some?
    ensures Document(c, edited.archive) == Document(c, rows[k].archive)
  {
    EditPassesExactlyWhen(c, rows, k, edited);
    assert !Mismatch(c, rows[k]);
  }

  // ---- whole chains ----

  predicate Readable(c: Crypto, rows: seq<Row>) {
    forall i :: 0 <= i < |rows| ==> Document(c, rows[i].archive).Some?
  }

  function DocumentOf(c: Crypto, rows: seq<Row>, i: nat): string
    requires i < |rows| && Document(c, rows[i].archive).Some?
  {
    Document(c, rows[i].archive).value
  }

  /** The document says the same counter and predecessor as the row. */
  predicate EmbedsAt(c: Crypto, rows: seq<Row>, i: nat)
    requires i < |rows| && Document(c, rows[i].archive).Some?
  {
    var d := DocumentOf(c, rows, i);
    rows[i].icv >= 0 && CounterIn(d) == Digits(rows[i].icv) && rows[i].previousHash == Some(PreviousHashIn(d))
  }

  predicate Embeds(c: Crypto, rows: seq<Row>)
    requires Readable(c, rows)
  {
    forall i: nat :: i < |rows| ==> EmbedsAt(c, rows, i)
  }

  predicate SameDocuments(c: Crypto, a: seq<Row>, b: seq<Row>)
    requires Readable(c, a) && Readable(c, b)
  {
    |a| == |b| && forall i: nat :: i < |a| ==> DocumentOf(c, a, i) == DocumentOf(c, b, i)
  }

  /** From the last document backwards: equal hashes, equal documents, equal predecessors. */
  lemma {:induction false} DocumentsAgreeBackwards(c: Crypto, a: seq<Row>, b: seq<Row>, i: nat)
    requires Injective(c) && Compliant(c, a) && Compliant(c, b) && Readable(c, a) && Readable(c, b)
    requires Embeds(c, a) && Embeds(c, b)
    requires |a| == |b| && i < |a| && a[|a| - 1].invoiceHash == b[|a| - 1].invoiceHash
    ensures a[i].invoiceHash == b[i].invoiceHash && DocumentOf(c, a, i) == DocumentOf(c, b, i)
    decreases |a| - i
  {
    assert !Mismatch(c, a[i]) && !Mismatch(c, b[i]);
    if i + 1 < |a| {
      DocumentsAgreeBackwards(c, a, b, i + 1);
      assert EmbedsAt(c, a, i + 1) && EmbedsAt(c, b, i + 1);
      assert LinkedAt(a, i + 1) && LinkedAt(b, i + 1);
    }
  }

  lemma {:induction false} LengthsAgree(c: Crypto, a: seq<Row>, b: seq<Row>)
    requires Injective(c) && Compliant(c, a) && Compliant(c, b) && Readable(c, a) && Readable(c, b)
    requires Embeds(c, a) && Embeds(c, b)
    requires a != [] && b != [] && a[|a| - 1].invoiceHash == b[|b| - 1].invoiceHash
    ensures |a| == |b|
  {
    assert !Mismatch(c, a[|a| - 1]) && !Mismatch(c, b[|b| - 1]);
    assert EmbedsAt(c, a, |a| - 1) && EmbedsAt(c, b, |b| - 1);
    ValueOfDigits(|a|);
    ValueOfDigits(|b|);
  }

  /** The final hash of a genuine chain fixes every document before it, exactly for those compliant
      chains whose documents embed what their rows say. */
  lemma {:induction false} FinalHashFixesDocumentsExactlyWhen(c: Crypto, genuine: seq<Row>, other: seq<Row>)
    requires Injective(c) && Compliant(c, genuine) && Compliant(c, other)
    requires Readable(c, genuine) && Readable(c, other) && Embeds(c, genuine)
    requires genuine != [] && other != []
    requires genuine[|genuine| - 1].invoiceHash == other[|other| - 1].invoiceHash
    ensures SameDocuments(c, genuine, other) <==> Embeds(c, other)
  {
    if Embeds(c, other) {
      LengthsAgree(c, genuine, other);
      forall i: nat | i < |genuine|
        ensures DocumentOf(c, genuine, i) == DocumentOf(c, other, i)
      {
        DocumentsAgreeBackwards(c, genuine, other, i);
      }
    }
    if SameDocuments(c, genuine, other) {
      forall i: nat | i < |other|
        ensures EmbedsAt(c, other, i)
      {
        assert EmbedsAt(c, genuine, i) && LinkedAt(genuine, i) && LinkedAt(other, i);
        if i > 0 {
          assert !Mismatch(c, genuine[i - 1]) && !Mismatch(c, other[i - 1]);
          assert DocumentOf(c, genuine, i - 1) == DocumentOf(c, other, i - 1);
        }
      }
    }
  }

  /** The self-check does not look at what the documents embed. Any earlier document can be replaced
      if its hash is rewritten in its row and in its successor's, and no test notices. */
  function Forged(c: Crypto, rows: seq<Row>, k: nat, xml: string): seq<Row>
    requires k + 1 < |rows| && Document(c, Stored(xml)).Some?
  {
    var hash := Some(c.hash(Document(c, Stored(xml)).value));
    rows[k := rows[k].(invoiceHash := hash, archive := Stored(xml))]
        [k + 1 := rows[k + 1].(previousHash := hash)]
  }

  lemma {:induction false} ForgeryIsNotNoticed(c: Crypto, rows: seq<Row>, k: nat, xml: string)
    requires Compliant(c, rows) && k + 1 < |rows| && Document(c, Stored(xml)).Some?
    ensures Compliant(c, Forged(c, rows, k, xml))
    ensures Forged(c, rows, k, xml)[|rows| - 1].invoiceHash == rows[|rows| - 1].invoiceHash
    ensures Document(c, Forged(c, rows, k, xml)[k].archive) == Document(c, Stored(xml))
  {
    var forged := Forged(c, rows, k, xml);
    forall i: nat | i < |forged|
      ensures LinkedAt(forged, i)
    {
      assert LinkedAt(rows, i);
    }
    assert forall i :: 0 <= i < |rows| ==> rows[i].icv == i + 1 && !Mismatch(c, rows[i]);
  }

  /** The documents themselves do tell: the successor of a replaced document no longer embeds its
      row's previous hash. */
  lemma {:induction false} EmbeddingExposesForgery(c: Crypto, rows: seq<Row>, k: nat, xml: string)
    requires Injective(c) && Compliant(c, rows) && Readable(c, rows) && Embeds(c, rows)
    requires k + 1 < |rows| && Document(c, Stored(xml)).Some?
    ensures Readable(c, Forged(c, rows, k, xml))
    ensures EmbedsAt(c, Forged(c, rows, k, xml), k + 1) <==> Document(c, Stored(xml)).value == DocumentOf(c, rows, k)
  {
    assert EmbedsAt(c, rows, k + 1) && LinkedAt(rows, k + 1) && !Mismatch(c, rows[k]);
  }
}
