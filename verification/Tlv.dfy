/** The QR payload as tag, length, value records. */
module Tlv {
  import opened Basics

  // `zatca-tlv.ts`. Values are the bytes after UTF-8 or Base64 conversion.

  type Byte = b: nat | b < 256

  datatype Record = Record(tag: Byte, value: seq<Byte>)

  datatype QrFields = QrFields(sellerName: seq<Byte>, vatNumber: seq<Byte>, timestamp: seq<Byte>,
                               invoiceTotal: seq<Byte>, vatTotal: seq<Byte>,
                               invoiceHash: Option<seq<Byte>>, signature: Option<seq<Byte>>,
                               publicKey: Option<seq<Byte>>, stampSignature: Option<seq<Byte>>)

  datatype Built = Bytes(buffer: seq<Byte>) | TooLong(tag: Byte)

  datatype Decoded = Fields(out: map<Byte, seq<Byte>>) | Malformed

  function Optional(tag: Byte, value: Option<seq<Byte>>): seq<Record> {
    if value.Some? then [Record(tag, value.value)] else []
  }

  /** The fields that go into the payload, in ascending tag order. */
  function Present(f: QrFields): seq<Record> {
    [Record(1, f.sellerName), Record(2, f.vatNumber), Record(3, f.timestamp),
     Record(4, f.invoiceTotal), Record(5, f.vatTotal)]
    + Optional(6, f.invoiceHash) + Optional(7, f.signature)
    + Optional(8, f.publicKey) + Optional(9, f.stampSignature)
  }

  function EncodeTag(r: Record): seq<Byte>
    requires |r.value| <= 255
  {
    [r.tag, |r.value|] + r.value
  }

  predicate AllShort(rs: seq<Record>) {
    forall i :: 0 <= i < |rs| ==> |rs[i].value| <= 255
  }

  function Encode(rs: seq<Record>): seq<Byte>
    requires AllShort(rs)
  {
    if rs == [] then [] else EncodeTag(rs[0]) + Encode(rs[1..])
  }

  /** Records read off the front of a buffer. */
  function Parse(buffer: seq<Byte>): Option<seq<Record>> {
    if buffer == [] then Some([])
    else if |buffer| < 2 || 2 + buffer[1] > |buffer| then None
    else
      match Parse(buffer[2 + buffer[1]..])
      case None => None
      case Some(rest) => Some([Record(buffer[0], buffer[2..2 + buffer[1]])] + rest)
  }

  /** Later records overwrite earlier ones of the same tag. */
  function Gather(rs: seq<Record>): map<Byte, seq<Byte>> {
    if rs == [] then map[] else Gather(rs[..|rs| - 1])[rs[|rs| - 1].tag := rs[|rs| - 1].value]
  }

  lemma {:induction false} EncodeAppend(rs: seq<Record>, r: Record)
    requires AllShort(rs) && |r.value| <= 255
    ensures Encode(rs + [r]) == Encode(rs) + EncodeTag(r)
  {
    hide EncodeTag;
    if rs == [] {
      assert [r][1..] == [] && [] + [r] == [r];
    } else {
      EncodeAppend(rs[1..], r);
      assert (rs + [r])[1..] == rs[1..] + [r];
      assert EncodeTag(rs[0]) + (Encode(rs[1..]) + EncodeTag(r)) == Encode(rs) + EncodeTag(r);
    }
  }

  // ---- building ----

  predicate FirstTooLong(rs: seq<Record>, i: nat)
    requires i < |rs|
  {
    |rs[i].value| > 255 && AllShort(rs[..i])
  }

  /** Appends the records one by one; the first one that is too long aborts. */
  method BuildTlv(f: QrFields) returns (built: Built)
    ensures built.Bytes? <==> AllShort(Present(f))
    ensures built.Bytes? ==> built.buffer == Encode(Present(f))
    ensures built.TooLong? ==>
              exists i :: 0 <= i < |Present(f)| && FirstTooLong(Present(f), i) && Present(f)[i].tag == built.tag
  {
    hide Present;
    var records := Present(f);
    var parts: seq<Byte> := [];
    for i := 0 to |records|
      invariant AllShort(records[..i])
      invariant parts == Encode(records[..i])
    {
      if |records[i].value| > 255 {
        assert FirstTooLong(records, i);
        return TooLong(records[i].tag);
      }
      EncodeAppend(records[..i], records[i]);
      assert records[..i + 1] == records[..i] + [records[i]];
      parts := parts + EncodeTag(records[i]);
    }
    assert records[..|records|] == records;
    return Bytes(parts);
  }

  // ---- decoding ----

  lemma {:induction false} GatherAppend(rs: seq<Record>, r: Record)
    ensures Gather(rs + [r]) == Gather(rs)[r.tag := r.value]
  {
    assert (rs + [r])[..|rs|] == rs;
  }

  function Prepend(read: seq<Record>, parsed: Option<seq<Record>>): Option<seq<Record>> {
    if parsed.Some? then Some(read + parsed.value) else None
  }

  lemma ParseOne(read: seq<Record>, rest: seq<Byte>)
    requires rest != []
    ensures if |rest| < 2 || 2 + (rest[1] as int) > |rest| then Prepend(read, Parse(rest)) == None
            else Prepend(read, Parse(rest))
                 == Prepend(read + [Record(rest[0], rest[2..2 + (rest[1] as int)])],
                            Parse(rest[2 + (rest[1] as int)..]))
  {
    if |rest| >= 2 && 2 + (rest[1] as int) <= |rest| {
      var r, tail := Record(rest[0], rest[2..2 + (rest[1] as int)]), Parse(rest[2 + (rest[1] as int)..]);
      if tail.Some? {
        assert read + ([r] + tail.value) == read + [r] + tail.value;
      }
    }
  }

  /** One record read at `offset`, or the end of reading. */
  lemma {:induction false} ReadStep(buffer: seq<Byte>, read: seq<Record>, offset: nat)
    requires offset < |buffer| && Parse(buffer) == Prepend(read, Parse(buffer[offset..]))
    ensures offset + 1 >= |buffer| || offset + 2 + (buffer[offset + 1] as int) > |buffer| ==> Parse(buffer) == None
    ensures offset + 1 < |buffer| && offset + 2 + (buffer[offset + 1] as int) <= |buffer| ==>
              var end := offset + 2 + (buffer[offset + 1] as int);
              Parse(buffer) == Prepend(read + [Record(buffer[offset], buffer[offset + 2..end])], Parse(buffer[end..]))
  {
    hide Parse, Prepend;
    var rest := buffer[offset..];
    ParseOne(read, rest);
    if offset + 1 < |buffer| && offset + 2 + (buffer[offset + 1] as int) <= |buffer| {
      var end := offset + 2 + (buffer[offset + 1] as int);
      assert rest[2..end - offset] == buffer[offset + 2..end] && rest[end - offset..] == buffer[end..];
    }
  }

  lemma {:induction false} ReadAround(buffer: seq<Byte>, read: seq<Record>)
    ensures Parse(buffer) == Prepend([], Parse(buffer[0..]))
    ensures Prepend(read, Parse(buffer[|buffer|..])) == Some(read)
  {
    assert buffer[0..] == buffer && read + [] == read;
    assert Parse(buffer).Some? ==> [] + Parse(buffer).value == Parse(buffer).value;
  }

  method DecodeTlv(buffer: seq<Byte>) returns (decoded: Decoded)
    ensures decoded == match Parse(buffer)
                       case None => Malformed
                       case Some(rs) => Fields(Gather(rs))
  {
    hide Parse, Prepend;
    var out: map<Byte, seq<Byte>> := map[];
    var offset := 0;
    ghost var read: seq<Record> := [];
    ReadAround(buffer, read);
    while offset < |buffer|
      invariant 0 <= offset <= |buffer|
      invariant out == Gather(read)
      invariant Parse(buffer) == Prepend(read, Parse(buffer[offset..]))
      decreases |buffer| - offset
    {
      ReadStep(buffer, read, offset);
      var tag := buffer[offset];
      if offset + 1 >= |buffer| || offset + 2 + buffer[offset + 1] > |buffer| {
        return Malformed;
      }
      var length := buffer[offset + 1];
      var value := buffer[offset + 2..offset + 2 + length];
      GatherAppend(read, Record(tag, value));
      out := out[tag := value];
      read := read + [Record(tag, value)];
      offset := offset + 2 + length;
    }
    ReadAround(buffer, read);
    return Fields(out);
  }

  // ---- round trips ----

  lemma {:induction false} ParseFront(r: Record, rest: seq<Byte>)
    requires |r.value| <= 255
    ensures Parse(EncodeTag(r) + rest) == Prepend([r], Parse(rest))
  {
    var buffer, n := EncodeTag(r) + rest, |r.value|;
    assert buffer[2..2 + n] == r.value && buffer[2 + n..] == rest;
  }

  lemma {:induction false} ParseCut(r: Record, n: nat)
    requires |r.value| <= 255 && 0 < n < |EncodeTag(r)|
    ensures Parse(EncodeTag(r)[..n]) == None
  {
  }

  lemma {:induction false} ParseUndoesEncode(rs: seq<Record>)
    requires AllShort(rs)
    ensures Parse(Encode(rs)) == Some(rs)
  {
    if rs != [] {
      assert Encode(rs) == EncodeTag(rs[0]) + Encode(rs[1..]);
      hide Parse, EncodeTag, Encode;
      ParseUndoesEncode(rs[1..]);
      ParseFront(rs[0], Encode(rs[1..]));
      assert [rs[0]] + rs[1..] == rs;
    }
  }

  lemma {:induction false} EncodeUndoesParse(buffer: seq<Byte>)
    requires Parse(buffer).Some?
    ensures AllShort(Parse(buffer).value) && Encode(Parse(buffer).value) == buffer
    decreases |buffer|
  {
    if buffer != [] {
      var n := (buffer[1] as int) + 2;
      EncodeUndoesParse(buffer[n..]);
      var rs, rest := Parse(buffer).value, Parse(buffer[n..]).value;
      assert rs[1..] == rest && rs[0] == Record(buffer[0], buffer[2..n]);
      assert forall i :: 0 < i < |rs| ==> rs[i] == rest[i - 1];
      assert buffer == [buffer[0], buffer[1]] + buffer[2..n] + buffer[n..];
    }
  }

  /** n bytes are some number of whole records. */
  predicate OnBoundary(rs: seq<Record>, n: nat)
    requires AllShort(rs)
  {
    exists k :: 0 <= k <= |rs| && n == |Encode(rs[..k])|
  }

  /** The boundaries of a payload are its start and those of the rest. */
  lemma {:induction false} BoundaryOfRest(rs: seq<Record>, n: nat)
    requires AllShort(rs) && rs != [] && n > 0
    ensures OnBoundary(rs, n) <==>
            n >= |EncodeTag(rs[0])| && OnBoundary(rs[1..], n - |EncodeTag(rs[0])|)
  {
    var first := |EncodeTag(rs[0])|;
    forall k | 1 <= k <= |rs|
      ensures |Encode(rs[..k])| == first + |Encode(rs[1..][..k - 1])|
    {
      assert rs[..k][1..] == rs[1..][..k - 1];
    }
    if n >= first && OnBoundary(rs[1..], n - first) {
      var k :| 0 <= k <= |rs[1..]| && n - first == |Encode(rs[1..][..k])|;
      assert n == |Encode(rs[..k + 1])|;
    }
  }

  /** A truncated payload decodes exactly when it is cut between two records. */
  lemma {:induction false} TruncationIsRejectedExactlyWhen(rs: seq<Record>, n: nat)
    requires AllShort(rs) && n <= |Encode(rs)|
    ensures Parse(Encode(rs)[..n]).Some? <==> OnBoundary(rs, n)
  {
    assert rs[..0] == [];
    if rs != [] && n > 0 {
      hide Parse, EncodeTag, OnBoundary;
      var first := |EncodeTag(rs[0])|;
      BoundaryOfRest(rs, n);
      if n >= first {
        assert Encode(rs)[..n] == EncodeTag(rs[0]) + Encode(rs[1..])[..n - first];
        ParseFront(rs[0], Encode(rs[1..])[..n - first]);
        TruncationIsRejectedExactlyWhen(rs[1..], n - first);
      } else {
        assert Encode(rs)[..n] == EncodeTag(rs[0])[..n];
        ParseCut(rs[0], n);
      }
    }
  }

  predicate TagsDiffer(rs: seq<Record>) {
    forall i, j :: 0 <= i < j < |rs| ==> rs[i].tag != rs[j].tag
  }

  lemma {:induction false} GatherKeepsDistinct(rs: seq<Record>, tag: Byte, value: seq<Byte>)
    requires TagsDiffer(rs)
    ensures (tag in Gather(rs) && Gather(rs)[tag] == value) <==> Record(tag, value) in rs
    ensures tag in Gather(rs) ==> exists i :: 0 <= i < |rs| && rs[i].tag == tag
  {
    if rs != [] {
      GatherKeepsDistinct(rs[..|rs| - 1], tag, value);
      assert rs == rs[..|rs| - 1] + [rs[|rs| - 1]];
      if Record(tag, value) in rs && rs[|rs| - 1].tag == tag {
        var i :| 0 <= i < |rs| && rs[i] == Record(tag, value);
      }
    }
  }

  predicate Ascending(rs: seq<Record>, bound: nat) {
    (forall i :: 0 <= i < |rs| ==> rs[i].tag < bound)
    && forall i, j :: 0 <= i < j < |rs| ==> rs[i].tag < rs[j].tag
  }

  lemma OptionalAscends(rs: seq<Record>, tag: Byte, value: Option<seq<Byte>>)
    requires Ascending(rs, tag)
    ensures Ascending(rs + Optional(tag, value), tag + 1)
  {
  }

  lemma TagsAscend(f: QrFields)
    ensures Ascending(Present(f), 10)
  {
    var rs := [Record(1, f.sellerName), Record(2, f.vatNumber), Record(3, f.timestamp),
               Record(4, f.invoiceTotal), Record(5, f.vatTotal)];
    OptionalAscends(rs, 6, f.invoiceHash);
    var rs6 := rs + Optional(6, f.invoiceHash);
    OptionalAscends(rs6, 7, f.signature);
    var rs7 := rs6 + Optional(7, f.signature);
    OptionalAscends(rs7, 8, f.publicKey);
    OptionalAscends(rs7 + Optional(8, f.publicKey), 9, f.stampSignature);
  }

  /** Decoding a built payload gives back exactly the present fields by tag. */
  lemma PayloadRoundTrip(f: QrFields, tag: Byte, value: seq<Byte>)
    requires AllShort(Present(f))
    ensures var parsed := Parse(Encode(Present(f)));
            && parsed.Some?
            && ((tag in Gather(parsed.value) && Gather(parsed.value)[tag] == value)
                <==> Record(tag, value) in Present(f))
  {
    ParseUndoesEncode(Present(f));
    TagsAscend(f);
    GatherKeepsDistinct(Present(f), tag, value);
  }

  predicate Says(out: map<Byte, seq<Byte>>, tag: Byte, value: Option<seq<Byte>>) {
    if value.Some? then tag in out && out[tag] == value.value else tag !in out
  }

  /** Field by field: the seller is under tag 1, the VAT number under 2, and so on up to the stamp's
      signature under 9; what is absent has no tag, and there is no other. */
  lemma {:induction false} PayloadSays(f: QrFields)
    requires AllShort(Present(f))
    ensures Parse(Encode(Present(f))).Some?
    ensures var out := Gather(Parse(Encode(Present(f))).value);
            && Says(out, 1, Some(f.sellerName)) && Says(out, 2, Some(f.vatNumber)) && Says(out, 3, Some(f.timestamp))
            && Says(out, 4, Some(f.invoiceTotal)) && Says(out, 5, Some(f.vatTotal))
            && Says(out, 6, f.invoiceHash) && Says(out, 7, f.signature)
            && Says(out, 8, f.publicKey) && Says(out, 9, f.stampSignature)
            && forall tag: Byte :: tag in out ==> 1 <= tag <= 9
  {
    hide Parse, Encode, Gather, Present, Says, Fits;
    ParseUndoesEncode(Present(f));
    TagsAscend(f);
    TagSays(f, 1, Some(f.sellerName));
    TagSays(f, 2, Some(f.vatNumber));
    TagSays(f, 3, Some(f.timestamp));
    TagSays(f, 4, Some(f.invoiceTotal));
    TagSays(f, 5, Some(f.vatTotal));
    TagSays(f, 6, f.invoiceHash);
    TagSays(f, 7, f.signature);
    TagSays(f, 8, f.publicKey);
    TagSays(f, 9, f.stampSignature);
    forall tag: Byte | tag in Gather(Present(f))
      ensures 1 <= tag <= 9
    {
      NoOtherTag(f, tag);
    }
  }

  /** The field a tag stands for. */
  predicate Fits(f: QrFields, tag: Byte, value: Option<seq<Byte>>) {
    || (tag == 1 && value == Some(f.sellerName)) || (tag == 2 && value == Some(f.vatNumber))
    || (tag == 3 && value == Some(f.timestamp)) || (tag == 4 && value == Some(f.invoiceTotal))
    || (tag == 5 && value == Some(f.vatTotal)) || (tag == 6 && value == f.invoiceHash)
    || (tag == 7 && value == f.signature) || (tag == 8 && value == f.publicKey)
    || (tag == 9 && value == f.stampSignature)
  }

  lemma {:induction false} InParts(a: seq<Record>, b: seq<Record>, c: seq<Record>, d: seq<Record>, e: seq<Record>,
                                   r: Record)
    ensures r in a + b + c + d + e <==> r in a || r in b || r in c || r in d || r in e
  {
  }

  lemma {:induction false} PresentIs(f: QrFields, r: Record)
    ensures r in Present(f) <==> Fits(f, r.tag, Some(r.value))
  {
    var first := [Record(1, f.sellerName), Record(2, f.vatNumber), Record(3, f.timestamp),
                  Record(4, f.invoiceTotal), Record(5, f.vatTotal)];
    InParts(first, Optional(6, f.invoiceHash), Optional(7, f.signature), Optional(8, f.publicKey),
            Optional(9, f.stampSignature), r);
    InFirst(f, r);
  }

  lemma {:induction false} InFirst(f: QrFields, r: Record)
    ensures r in [Record(1, f.sellerName), Record(2, f.vatNumber), Record(3, f.timestamp),
                  Record(4, f.invoiceTotal), Record(5, f.vatTotal)]
        <==> r == Record(1, f.sellerName) || r == Record(2, f.vatNumber) || r == Record(3, f.timestamp)
             || r == Record(4, f.invoiceTotal) || r == Record(5, f.vatTotal)
  {
  }

  lemma {:induction false} TagSays(f: QrFields, tag: Byte, value: Option<seq<Byte>>)
    requires Ascending(Present(f), 10)
    requires value == match tag
                      case 1 => Some(f.sellerName) case 2 => Some(f.vatNumber) case 3 => Some(f.timestamp)
                      case 4 => Some(f.invoiceTotal) case 5 => Some(f.vatTotal) case 6 => f.invoiceHash
                      case 7 => f.signature case 8 => f.publicKey case 9 => f.stampSignature case _ => None
    requires 1 <= tag <= 9
    ensures Says(Gather(Present(f)), tag, value)
  {
    hide Gather, Present;
    var out := Gather(Present(f));
    if value.Some? {
      PresentIs(f, Record(tag, value.value));
      GatherKeepsDistinct(Present(f), tag, value.value);
    } else if tag in out {
      GatherKeepsDistinct(Present(f), tag, out[tag]);
      PresentIs(f, Record(tag, out[tag]));
      assert false;
    }
  }

  lemma {:induction false} NoOtherTag(f: QrFields, tag: Byte)
    requires Ascending(Present(f), 10) && tag in Gather(Present(f))
    ensures 1 <= tag <= 9
  {
    hide Gather, Present;
    var value := Gather(Present(f))[tag];
    GatherKeepsDistinct(Present(f), tag, value);
    PresentIs(f, Record(tag, value));
  }
}
