/** Splicing the signature block and the QR reference into an invoice (`zatca-sign.ts`) and taking
    them out again (`stripSignatureElements` in `zatca-xml.ts`). */
module Signing {
  import opened Basics
  import opened Text

  const EXT_TAG := "ext:UBLExtensions"
  const REF_TAG := "cac:AdditionalDocumentReference"

  function ExtOpen(): string { "<" + EXT_TAG + ">" }
  function ExtClose(): string { "<" + ("/" + EXT_TAG) + ">" }
  function QrOpen(): string { "<" + REF_TAG + ">" + "<cbc:ID>QR</cbc:ID>" }
  function RefClose(): string { "<" + ("/" + REF_TAG) + ">" }

  /** stripSignatureElements */
  function Strip(xml: string): string {
    StripFirst(StripFirst(xml, ExtOpen(), ExtClose()), QrOpen(), RefClose())
  }

  // ---- the root element's opening tag: /<Invoice\b[^>]*>/ ----

  predicate IsWord(c: char) {
    'a' <= c <= 'z' || 'A' <= c <= 'Z' || '0' <= c <= '9' || c == '_'
  }

  predicate RootAt(s: string, i: nat) {
    At(s, "<Invoice", i) && (i + 8 == |s| || !IsWord(s[i + 8]))
  }

  function FindRoot(s: string, from: nat): (i: int)
    ensures i == -1 || (from <= i && RootAt(s, i))
    ensures forall j: nat :: from <= j && (i == -1 || j < i) ==> !RootAt(s, j)
    decreases |s| - from
  {
    if from + 8 > |s| then -1
    else if RootAt(s, from) then from
    else FindRoot(s, from + 1)
  }

  /** Where the root's opening tag ends. */
  function RootEnd(s: string): Option<nat> {
    var i := FindRoot(s, 0);
    if i < 0 then None
    else
      var j := Find(s, ">", i + 8);
      if j < 0 then None else Some(j + 1)
  }

  /** spliceAfterRootOpenTag; None is the error for a document without a root element. */
  function Splice(xml: string, block: string): Option<string> {
    match RootEnd(xml)
    case None => None
    case Some(p) =>
      RootEndInside(xml);
      Some(xml[..p] + block + xml[p..])
  }

  lemma {:induction false} RootEndInside(xml: string)
    ensures RootEnd(xml).Some? ==> RootEnd(xml).value <= |xml| && RootEnd(xml).value > 0
                                   && xml[RootEnd(xml).value - 1] == '>'
  {
    var i := FindRoot(xml, 0);
    if i >= 0 {
      FindIsFirst(xml, ">", i + 8);
      assert ">"[0] == '>';
    }
  }

  /** The signed document: the extensions first, then the QR reference, both right after the root tag. */
  function Sign(base: string, extensions: string, qr: string): Option<string> {
    match Splice(base, extensions)
    case None => None
    case Some(withSignature) => Splice(withSignature, qr)
  }

  /** A match within the front part of a string is a match of the front part. */
  lemma {:induction false} AtInside(front: string, rest: string, p: string, k: nat)
    requires k + |p| <= |front|
    ensures At(front + rest, p, k) <==> At(front, p, k)
  {
    assert (front + rest)[k..k + |p|] == front[k..k + |p|];
  }

  lemma {:induction false} AtBeyond(front: string, rest: string, p: string, k: nat)
    requires k >= |front|
    ensures At(front + rest, p, k) <==> At(rest, p, k - |front|)
  {
    if k + |p| <= |front + rest| {
      assert (front + rest)[k..k + |p|] == rest[k - |front|..k - |front| + |p|];
    }
  }

  lemma {:induction false} RootInside(front: string, rest: string, k: nat)
    requires k + 8 < |front|
    ensures RootAt(front + rest, k) <==> RootAt(front, k)
  {
    AtInside(front, rest, "<Invoice", k);
  }

  lemma {:induction false} FindRootIs(s: string, i: nat)
    requires RootAt(s, i) && forall j: nat :: j < i ==> !RootAt(s, j)
    ensures FindRoot(s, 0) == i
  {
  }

  /** The root tag is found the same way whatever follows it. */
  lemma {:induction false} RootEndDependsOnHead(head: string, rest: string, other: string)
    requires RootEnd(head + rest) == Some(|head|)
    ensures RootEnd(head + other) == Some(|head|)
  {
    var i := FindRoot(head + rest, 0);
    FindIsFirst(head + rest, ">", i + 8);
    forall j: nat | j <= i
      ensures RootAt(head + other, j) <==> RootAt(head + rest, j)
    {
      RootInside(head, rest, j);
      RootInside(head, other, j);
    }
    FindRootIs(head + other, i);
    forall j: nat | i + 8 <= j < |head|
      ensures At(head + other, ">", j) <==> At(head + rest, ">", j)
    {
      AtInside(head, rest, ">", j);
      AtInside(head, other, ">", j);
    }
    FoundAt(head + other, ">", i + 8, |head| - 1);
  }

  lemma {:induction false} SignIs(base: string, extensions: string, qr: string)
    requires RootEnd(base).Some?
    ensures RootEnd(base).value <= |base|
    ensures var p := RootEnd(base).value;
            Sign(base, extensions, qr) == Some(base[..p] + qr + (extensions + base[p..]))
  {
    RootEndInside(base);
    var p := RootEnd(base).value;
    var head, body := base[..p], base[p..];
    assert head + body == base;
    RootEndDependsOnHead(head, body, extensions + body);
    assert base[..p] + extensions + base[p..] == head + (extensions + body);
    assert (head + (extensions + body))[..p] == head;
    assert (head + (extensions + body))[p..] == extensions + body;
  }

  // ---- the two spliced blocks ----

  /** The markers of a block occur in it where they should and nowhere before. */
  predicate ExtensionsBlock(block: string) {
    && |block| >= |ExtOpen()| + |ExtClose()|
    && At(block, ExtOpen(), 0)
    && Find(block, ExtClose(), |ExtOpen()|) == |block| - |ExtClose()|
  }

  predicate QrBlock(block: string) {
    && |block| >= |QrOpen()| + |RefClose()|
    && At(block, QrOpen(), 0)
    && Find(block, RefClose(), |QrOpen()|) == |block| - |RefClose()|
    && Find(block, ExtOpen(), 0) == -1
  }

  /** A single tag does not straddle the end of a piece that ends in '>'. */
  lemma {:induction false} TagDoesNotStraddle(front: string, rest: string, body: string, k: nat)
    requires front != "" && front[|front| - 1] == '>' && Plain(body)
    requires At(front + rest, "<" + body + ">", k) && k < |front|
    ensures k + |body| + 2 <= |front|
  {
    var s, p := front + rest, "<" + body + ">";
    var at := |front| - 1 - k;
    assert forall i :: 0 < i <= |body| ==> p[i] == body[i - 1];
    assert s[|front| - 1] == '>';
    assert at < |p| ==> p[at] == s[k + at];
  }

  lemma {:induction false} TagsArePlain()
    ensures Plain(EXT_TAG) && Plain(REF_TAG) && Plain("/" + EXT_TAG) && Plain("/" + REF_TAG)
  {
  }

  /** The QR marker does not straddle the end of a piece that ends in '>' when a reference follows. */
  lemma {:induction false} QrOpenDoesNotStraddle(front: string, rest: string, k: nat)
    requires front != "" && front[|front| - 1] == '>' && At(rest, "<cac", 0)
    requires At(front + rest, QrOpen(), k) && k < |front|
    ensures k + |QrOpen()| <= |front|
  {
    var s, p := front + rest, QrOpen();
    var at := |front| - 1 - k;
    assert s[|front| - 1] == '>';
    assert forall i :: 0 <= i < |p| ==> p[i] == s[k + i];
    assert forall i :: 0 <= i < 4 ==> "<cac"[i] == rest[i] == s[|front| + i];
    QrOpenBrackets(at);
  }

  /** Inside the QR marker a '>' is followed by "<cb" or by 'Q'. */
  lemma {:induction false} QrOpenBrackets(at: nat)
    ensures |QrOpen()| == 52
    ensures at < 51 && QrOpen()[at] == '>' ==> (at == 32 && QrOpen()[at + 3] == 'b') || QrOpen()[at + 1] == 'Q'
  {
  }

  // ---- stripping undoes signing ----

  lemma {:induction false} FirstOpen(s: string, front: string, block: string, body: string, open: string)
    requires s == front + (block + body) && At(block, open, 0)
    requires forall j: nat :: j < |front| ==> !At(s, open, j)
    ensures Find(s, open, 0) == |front|
  {
    AtBeyond(front, block + body, open, |front|);
    AtInside(block, body, open, 0);
    FoundAt(s, open, 0, |front|);
  }

  lemma {:induction false} FirstClose(s: string, front: string, block: string, body: string, close: string, from: nat)
    requires s == front + (block + body)
    requires from + |close| <= |block| && Find(block, close, from) == |block| - |close|
    ensures Find(s, close, |front| + from) == |front| + |block| - |close|
  {
    var end := |block| - |close|;
    FindIsFirst(block, close, from);
    forall j: nat | |front| + from <= j <= |front| + end
      ensures At(s, close, j) <==> At(block, close, j - |front|)
    {
      AtBeyond(front, block + body, close, j);
      AtInside(block, body, close, j - |front|);
    }
    FoundAt(s, close, |front| + from, |front| + end);
  }

  lemma {:induction false} MatchIsBlock(s: string, front: string, block: string, body: string,
                                        open: string, close: string)
    requires s == front + (block + body) && Find(s, open, 0) == |front|
    requires |open| + |close| <= |block| && Find(block, close, |open|) == |block| - |close|
    ensures Match(s, open, close) == Some(Span(|front|, |front| + |block|))
  {
    FirstClose(s, front, block, body, close, |open|);
    MatchIs(s, open, close, |front|, |front| + |block| - |close|);
  }

  lemma {:induction false} CutOut(s: string, front: string, block: string, body: string)
    requires s == front + (block + body)
    ensures Without(s, Span(|front|, |front| + |block|)) == front + body
  {
    assert s[..|front|] == front;
    assert s[|front| + |block|..] == body;
  }

  /** A block whose opening marker is the first of its kind is cut out whole. */
  lemma {:induction false} StripFirstIs(s: string, front: string, block: string, body: string,
                                        open: string, close: string)
    requires s == front + (block + body) && Find(s, open, 0) == |front|
    requires |open| + |close| <= |block| && Find(block, close, |open|) == |block| - |close|
    ensures StripFirst(s, open, close) == front + body
  {
    MatchIsBlock(s, front, block, body, open, close);
    CutOut(s, front, block, body);
  }

  /** The extensions marker is not found before the extensions. */
  lemma {:induction false} NoExtensionsBefore(head: string, qr: string, rest: string, j: nat)
    requires head != "" && head[|head| - 1] == '>' && Find(head, ExtOpen(), 0) == -1
    requires qr != "" && qr[|qr| - 1] == '>' && Find(qr, ExtOpen(), 0) == -1
    requires j < |head + qr|
    ensures !At(head + qr + rest, ExtOpen(), j)
  {
    TagsArePlain();
    FindIsFirst(head, ExtOpen(), 0);
    FindIsFirst(qr, ExtOpen(), 0);
    if At(head + qr + rest, ExtOpen(), j) {
      TagDoesNotStraddle(head + qr, rest, EXT_TAG, j);
      AtInside(head + qr, rest, ExtOpen(), j);
      if j < |head| {
        TagDoesNotStraddle(head, qr, EXT_TAG, j);
        AtInside(head, qr, ExtOpen(), j);
      } else {
        AtBeyond(head, qr, ExtOpen(), j);
      }
    }
  }

  lemma {:induction false} StripExtensions(head: string, qr: string, ext: string, body: string)
    requires head != "" && head[|head| - 1] == '>' && Find(head, ExtOpen(), 0) == -1
    requires QrBlock(qr) && ExtensionsBlock(ext)
    ensures StripFirst(head + qr + (ext + body), ExtOpen(), ExtClose()) == head + qr + body
  {
    QrBlockEnds(qr);
    forall j: nat | j < |head + qr|
      ensures !At(head + qr + (ext + body), ExtOpen(), j)
    {
      NoExtensionsBefore(head, qr, ext + body, j);
    }
    FirstOpen(head + qr + (ext + body), head + qr, ext, body, ExtOpen());
    StripFirstIs(head + qr + (ext + body), head + qr, ext, body, ExtOpen(), ExtClose());
  }

  lemma {:induction false} StripQr(head: string, qr: string, body: string)
    requires head != "" && head[|head| - 1] == '>' && Find(head, QrOpen(), 0) == -1
    requires QrBlock(qr)
    ensures StripFirst(head + (qr + body), QrOpen(), RefClose()) == head + body
  {
    QrBlockEnds(qr);
    AtInside(qr, body, "<cac", 0);
    forall j: nat | j < |head|
      ensures !At(head + (qr + body), QrOpen(), j)
    {
      NoQrBefore(head, qr + body, j);
    }
    FirstOpen(head + (qr + body), head, qr, body, QrOpen());
    StripFirstIs(head + (qr + body), head, qr, body, QrOpen(), RefClose());
  }

  lemma {:induction false} NoQrBefore(head: string, rest: string, j: nat)
    requires head != "" && head[|head| - 1] == '>' && Find(head, QrOpen(), 0) == -1
    requires At(rest, "<cac", 0) && j < |head|
    ensures !At(head + rest, QrOpen(), j)
  {
    FindIsFirst(head, QrOpen(), 0);
    if At(head + rest, QrOpen(), j) {
      QrOpenDoesNotStraddle(head, rest, j);
      AtInside(head, rest, QrOpen(), j);
    }
  }

  lemma {:induction false} QrBlockEnds(qr: string)
    requires QrBlock(qr)
    ensures qr != "" && qr[|qr| - 1] == '>' && At(qr, "<cac", 0)
  {
    FindIsFirst(qr, RefClose(), |QrOpen()|);
    assert RefClose()[|RefClose()| - 1] == '>';
    assert forall i :: 0 <= i < 4 ==> "<cac"[i] == QrOpen()[i] == qr[i];
  }

  lemma {:induction false} SplicesAt(head: string, body: string, extensions: string, qr: string)
    requires RootEnd(head + body) == Some(|head|)
    ensures Sign(head + body, extensions, qr) == Some(head + qr + (extensions + body))
  {
    SignIs(head + body, extensions, qr);
    assert (head + body)[..|head|] == head && (head + body)[|head|..] == body;
  }

  lemma {:induction false} StripsAt(head: string, body: string, extensions: string, qr: string)
    requires head != "" && head[|head| - 1] == '>'
    requires Find(head, ExtOpen(), 0) == -1 && Find(head, QrOpen(), 0) == -1
    requires ExtensionsBlock(extensions) && QrBlock(qr)
    ensures Strip(head + qr + (extensions + body)) == head + body
  {
    StripExtensions(head, qr, extensions, body);
    Regroup(head, qr, body);
    StripQr(head, qr, body);
    StripIs(head + qr + (extensions + body), head + (qr + body));
  }

  lemma {:induction false} StripIs(xml: string, once: string)
    requires StripFirst(xml, ExtOpen(), ExtClose()) == once
    ensures Strip(xml) == StripFirst(once, QrOpen(), RefClose())
  {
  }

  /** Stripping undoes signing for every document that has a root tag and neither marker up to the
      end of it, whatever the rest of the document says. */
  lemma {:induction false} StripUndoesSign(base: string, extensions: string, qr: string)
    requires RootEnd(base).Some? && RootEnd(base).value <= |base|
    requires var head := base[..RootEnd(base).value];
             Find(head, ExtOpen(), 0) == -1 && Find(head, QrOpen(), 0) == -1
    requires ExtensionsBlock(extensions) && QrBlock(qr)
    ensures Sign(base, extensions, qr).Some?
    ensures Strip(Sign(base, extensions, qr).value) == base
  {
    RootEndInside(base);
    var head, body := base[..RootEnd(base).value], base[RootEnd(base).value..];
    assert head + body == base;
    SplicesAt(head, body, extensions, qr);
    StripsAt(head, body, extensions, qr);
  }

  /** Stripping leaves a document alone exactly when no marker pair is in it. */
  lemma {:induction false} StripKeepsExactlyWhen(xml: string)
    ensures Strip(xml) == xml
        <==> !HasPair(xml, ExtOpen(), ExtClose()) && !HasPair(xml, QrOpen(), RefClose())
  {
    var once := StripFirst(xml, ExtOpen(), ExtClose());
    StripFirstKeepsExactlyWhen(xml, ExtOpen(), ExtClose());
    StripFirstKeepsExactlyWhen(once, QrOpen(), RefClose());
  }
}
