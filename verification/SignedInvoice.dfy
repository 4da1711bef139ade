/** What the built invoice and the spliced blocks look like to a search: no marker in the invoice,
    each marker in its block where stripping expects it, and the root tag found past the declaration. */
module SignedInvoice {
  import opened Basics
  import opened Text
  import opened SignatureBlock
  import opened Signing
  import opened UblInvoice

  // ---- no marker in the invoice ----

  predicate IsText(t: Token) {
    t.Chars? && t.text != ""
  }

  /** No extensions tag, and every document reference is followed by white space or other text
      before its first child. */
  predicate Clean(ts: seq<Token>) {
    && WellFormed(ts)
    && (forall i :: 0 <= i < |ts| ==> ts[i] != Tag(EXT_TAG))
    && forall i :: 0 <= i < |ts| && ts[i] == Tag(REF_TAG) ==> i + 1 < |ts| && IsText(ts[i + 1])
  }

  lemma {:induction false} CleanConcat(a: seq<Token>, b: seq<Token>)
    requires Clean(a) && Clean(b)
    ensures Clean(a + b)
  {
  }

  lemma {:induction false} NamesAreNotMarkers(name: Name, attributes: Attributes)
    ensures name + attributes != EXT_TAG && name + attributes != REF_TAG
    ensures "/" + name != EXT_TAG && "/" + name != REF_TAG && "/" + name != "/" + EXT_TAG
  {
    assert EXT_TAG[0] == 'e' && REF_TAG[0] == 'c' && ("/" + name)[0] == '/';
    assert ("/" + name)[1..] == name && ("/" + EXT_TAG)[1..] == EXT_TAG;
    assert ' ' !in EXT_TAG && ' ' !in REF_TAG;
    if attributes != "" {
      assert (name + attributes)[|name|] == ' ';
    } else {
      assert name + attributes == name;
    }
  }

  lemma {:induction false} EnclosedIsClean(name: string, inner: seq<Token>, indent: nat)
    requires Plain(name) && name != EXT_TAG && "/" + name != EXT_TAG && "/" + name != REF_TAG
    requires Clean(inner) && (inner != [] ==> IsText(inner[0]))
    ensures Clean(Enclose(name, inner, indent)) && IsText(Enclose(name, inner, indent)[0])
  {
    var rest := inner + [Break(indent), Tag("/" + name)];
    CleanConcat(inner, [Break(indent), Tag("/" + name)]);
    assert IsText(rest[0]);
  }

  lemma {:induction false} LeafIsClean(indent: nat, name: Name, attributes: Attributes, text: Markup)
    ensures Clean([Break(indent), Tag(name + attributes), Chars(text), Tag("/" + name)])
  {
    NamesAreNotMarkers(name, attributes);
  }

  lemma {:induction false} WrappedIsClean(indent: nat, outer: Name, name: Name, text: Markup)
    ensures Clean([Break(indent), Tag(outer), Tag(name), Chars(text), Tag("/" + name), Tag("/" + outer)])
  {
    NamesAreNotMarkers(outer, "");
    NamesAreNotMarkers(name, "");
  }

  lemma {:induction false} RenderIsClean(n: Node, indent: nat)
    ensures Clean(Render(n, indent)) && IsText(Render(n, indent)[0])
    decreases n, 0
  {
    match n
    case Leaf(name, attributes, text) => LeafIsClean(indent, name, attributes, text);
    case Wrapped(outer, name, text) => WrappedIsClean(indent, outer, name, text);
    case Gap =>
    case Group(name, children) =>
      NamesAreNotMarkers(name, "");
      RenderAllIsClean(children, indent + 2);
      EnclosedIsClean(name, RenderAll(children, indent + 2), indent);
    case Reference(children) =>
      MarkerNames();
      RenderAllIsClean(children, indent + 2);
      EnclosedIsClean(REF_TAG, RenderAll(children, indent + 2), indent);
  }

  lemma {:induction false} RenderAllIsClean(ns: seq<Node>, indent: nat)
    ensures Clean(RenderAll(ns, indent))
    ensures RenderAll(ns, indent) != [] ==> IsText(RenderAll(ns, indent)[0])
    decreases ns, 1
  {
    if ns != [] {
      RenderIsClean(ns[0], indent);
      RenderAllIsClean(ns[1..], indent);
      CleanConcat(Render(ns[0], indent), RenderAll(ns[1..], indent));
    }
  }

  lemma {:induction false} MarkerNames()
    ensures Plain(REF_TAG) && REF_TAG != EXT_TAG && "/" + REF_TAG != EXT_TAG && "/" + REF_TAG != REF_TAG
  {
    assert |"/" + REF_TAG| == 32;
  }

  lemma {:induction false} AssembledIsClean(declaration: Markup, namespaces: Markup, content: seq<Token>, noLines: bool)
    requires Clean(content) && declaration != "" && declaration[0] == '?'
    ensures Clean(Assemble(declaration, namespaces, content, noLines))
  {
    var root, end := Tag("Invoice " + namespaces), Tag("/Invoice");
    assert root.body[0] == "Invoice "[0] == 'I' && end.body[0] == '/';
    assert EXT_TAG[0] == 'e' && REF_TAG[0] == 'c';
    var front := [Tag(declaration), Chars("\n"), root];
    assert Clean(front);
    CleanConcat(front, content);
    var gap: seq<Token> := if noLines then [Chars("\n")] else [];
    CleanConcat(front + content, gap);
    CleanConcat(front + content + gap, [Chars("\n"), end]);
  }

  lemma {:induction false} TokensAreClean(inp: Input)
    requires ValidInput(inp)
    ensures Clean(Tokens(inp))
  {
    hide Clean, RenderAll, Body, Declaration, Namespaces, Assemble;
    RenderAllIsClean(Body(inp), 2);
    DeclarationStarts();
    AssembledIsClean(Declaration(), Namespaces(), RenderAll(Body(inp), 2), inp.lines == []);
  }

  lemma {:induction false} DeclarationStarts()
    ensures |Declaration()| > 4 && Declaration()[0] == '?' && Declaration()[1] == 'x'
  {
  }

  /** What follows a document reference's opening tag is not another tag. */
  lemma {:induction false} ReferenceThenText(ts: seq<Token>, i: nat)
    requires Clean(ts) && i < |ts| && ts[i] == Tag(REF_TAG)
    ensures var at := |Print(ts[..i])| + |REF_TAG| + 2;
            at < |Print(ts)| && Print(ts)[at] != '<'
  {
    PrintNext(ts, i);
    PrintSplit(ts, i + 1);
    assert Print(ts)[|Print(ts[..i + 1])|] == ts[i + 1].text[0];
  }

  /** In a clean document there is neither marker. */
  lemma {:induction false} CleanHasNoMarker(ts: seq<Token>, k: nat)
    requires Clean(ts)
    ensures !At(Print(ts), ExtOpen(), k) && !At(Print(ts), QrOpen(), k)
  {
    TagsArePlain();
    NoTagNoMatch(ts, EXT_TAG, k);
    var open := "<" + REF_TAG + ">";
    assert QrOpen()[|open|] == '<';
    assert forall i :: 0 <= i < |open| ==> QrOpen()[i] == open[i];
    if At(Print(ts), QrOpen(), k) {
      assert At(Print(ts), open, k);
      var i := TagOccurs(ts, REF_TAG, k);
      ReferenceThenText(ts, i);
    }
  }

  // ---- where the root's opening tag ends ----

  predicate StartsLikeInvoice(ts: seq<Token>) {
    && |ts| >= 3 && WellFormed(ts)
    && ts[0].Tag? && ts[0].body != "" && ts[0].body[0] == '?'
    && ts[1].Chars?
    && ts[2].Tag? && At(ts[2].body, "Invoice ", 0)
  }

  /** Nothing before the third token looks like the root. */
  lemma {:induction false} NoRootBefore(ts: seq<Token>, j: nat)
    requires StartsLikeInvoice(ts) && At(Print(ts), "<Invoice", j)
    ensures j >= |PrintToken(ts[0])| + |PrintToken(ts[1])|
  {
    var p := "<Invoice";
    assert p[1] == 'I' && Print(ts)[1] == ts[0].body[0];
    assert p[1] == Print(ts)[j + 1];
    OpensFirstOrLater(ts[0], Print(ts[1..]), p, j);
    OpensFirstOrLater(ts[1], Print(ts[2..]), p, j - |PrintToken(ts[0])|);
  }

  lemma {:induction false} RootStands(s: string, front: string, body: string, rest: string)
    requires s == front + ("<" + body + ">" + rest) && Plain(body) && At(body, "Invoice ", 0)
    ensures RootAt(s, |front|)
    ensures Find(s, ">", |front| + 8) == |front| + |body| + 1
  {
    var k, p := |front|, "<Invoice";
    assert forall i :: 0 <= i < |body| ==> s[k + 1 + i] == body[i];
    assert forall i :: 0 <= i < 7 ==> p[i + 1] == "Invoice "[i];
    forall i | 0 <= i < |p|
      ensures p[i] == s[k + i]
    {
      if i > 0 {
        assert p[i] == "Invoice "[i - 1] == body[i - 1];
      }
    }
    assert s[k + 8] == body[7] == "Invoice "[7] == ' ';
    var end := k + |body| + 1;
    assert s[end] == '>' && ">"[0] == '>';
    forall j: nat | k + 8 <= j < end
      ensures !At(s, ">", j)
    {
      assert s[j] == body[j - k - 1];
    }
    FoundAt(s, ">", k + 8, end);
  }

  lemma {:induction false} FirstTwo(ts: seq<Token>)
    requires |ts| >= 3
    ensures Print(ts[..2]) == PrintToken(ts[0]) + PrintToken(ts[1])
  {
    PrintNext(ts, 0);
    PrintNext(ts, 1);
    assert ts[..0] == [];
  }

  lemma {:induction false} FirstThree(ts: seq<Token>)
    requires |ts| >= 3
    ensures |Print(ts[..3])| == |Print(ts[..2])| + |PrintToken(ts[2])|
    ensures Print(ts) == Print(ts[..2]) + (PrintToken(ts[2]) + Print(ts[3..]))
  {
    PrintNext(ts, 2);
    PrintSplit(ts, 2);
    Regroup(Print(ts[..2]), PrintToken(ts[2]), Print(ts[3..]));
  }

  lemma {:induction false} RootEndsAfterThree(ts: seq<Token>)
    requires StartsLikeInvoice(ts)
    ensures RootEnd(Print(ts)) == Some(|Print(ts[..3])|)
  {
    hide Print;
    var s, front := Print(ts), Print(ts[..2]);
    FirstTwo(ts);
    FirstThree(ts);
    RootStands(s, front, ts[2].body, Print(ts[3..]));
    forall j: nat | j < |front|
      ensures !RootAt(s, j)
    {
      if At(s, "<Invoice", j) {
        NoRootBefore(ts, j);
      }
    }
    FindRootIs(s, |front|);
  }

  lemma {:induction false} AssembledStarts(declaration: Markup, namespaces: Markup, content: seq<Token>, noLines: bool)
    requires WellFormed(Assemble(declaration, namespaces, content, noLines))
    requires declaration != "" && declaration[0] == '?'
    ensures StartsLikeInvoice(Assemble(declaration, namespaces, content, noLines))
  {
    var ts := Assemble(declaration, namespaces, content, noLines);
    assert ts[0] == Tag(declaration) && ts[1] == Chars("\n") && ts[2] == Tag("Invoice " + namespaces);
  }

  lemma {:induction false} TokensFacts(inp: Input)
    requires ValidInput(inp)
    ensures Clean(Tokens(inp)) && StartsLikeInvoice(Tokens(inp))
  {
    hide RenderAll, Body, Declaration, Namespaces, Assemble, StartsLikeInvoice;
    TokensAreClean(inp);
    DeclarationStarts();
    AssembledStarts(Declaration(), Namespaces(), RenderAll(Body(inp), 2), inp.lines == []);
  }

  /** What signing relies on: there is a root, and neither marker occurs anywhere. */
  predicate Signable(xml: string) {
    && RootEnd(xml).Some? && RootEnd(xml).value <= |xml|
    && Find(xml, ExtOpen(), 0) == -1 && Find(xml, QrOpen(), 0) == -1
  }

  lemma {:induction false} CleanIsSignable(ts: seq<Token>)
    requires Clean(ts) && StartsLikeInvoice(ts)
    ensures Signable(Print(ts))
  {
    RootEndsAfterThree(ts);
    RootEndInside(Print(ts));
    CleanHasNoMarker(ts, 0);
    forall k: nat
      ensures !At(Print(ts), ExtOpen(), k) && !At(Print(ts), QrOpen(), k)
    {
      CleanHasNoMarker(ts, k);
    }
    FindIsFirst(Print(ts), ExtOpen(), 0);
    FindIsFirst(Print(ts), QrOpen(), 0);
  }

  /** No field of an invoice, whatever its text, can put a marker into the document. */
  lemma {:induction false} InvoiceIsSignable(inp: Input)
    requires ValidInput(inp)
    ensures Signable(BuildUblInvoice(inp))
  {
    hide Body;
    TokensFacts(inp);
    CleanIsSignable(Tokens(inp));
  }

  lemma {:induction false} FindInFront(front: string, rest: string, p: string)
    requires Find(front + rest, p, 0) == -1
    ensures Find(front, p, 0) == -1
  {
    FindIsFirst(front + rest, p, 0);
    FindIsFirst(front, p, 0);
    forall i: nat | i + |p| <= |front|
      ensures At(front + rest, p, i) <==> At(front, p, i)
    {
      AtInside(front, rest, p, i);
    }
  }

  lemma {:induction false} SignableStripsBack(xml: string, extensions: string, qr: string)
    requires Signable(xml) && ExtensionsBlock(extensions) && QrBlock(qr)
    ensures Sign(xml, extensions, qr).Some?
    ensures Strip(Sign(xml, extensions, qr).value) == xml
  {
    var head, body := xml[..RootEnd(xml).value], xml[RootEnd(xml).value..];
    assert head + body == xml;
    FindInFront(head, body, ExtOpen());
    FindInFront(head, body, QrOpen());
    StripUndoesSign(xml, extensions, qr);
  }

  lemma {:induction false} SignableStaysAsIs(xml: string)
    requires Signable(xml)
    ensures Strip(xml) == xml
  {
  }

  // ---- the two spliced blocks ----

  /** Elements none of which closes the extensions element around them. */
  predicate ExtensionContent(inner: seq<Token>) {
    WellFormed(inner) && forall i :: 0 <= i < |inner| ==> inner[i] != Tag("/" + EXT_TAG)
  }

  lemma {:induction false} OpeningsDoNotClose(name: Name, attributes: Attributes)
    ensures name + attributes != "/" + EXT_TAG && name + attributes + "/" != "/" + EXT_TAG
    ensures "/" + name != "/" + EXT_TAG
  {
    NamesAreNotMarkers(name, attributes);
    assert ("/" + EXT_TAG)[0] == '/';
    assert (name + attributes)[0] == (name + attributes + "/")[0] == name[0];
  }

  lemma {:induction false} NestIsContent(name: Name, attributes: Attributes, inner: seq<Token>)
    requires ExtensionContent(inner)
    ensures ExtensionContent([Tag(name + attributes)] + inner + [Tag("/" + name)])
  {
    OpeningsDoNotClose(name, attributes);
  }

  /** Whatever names, attributes and texts the block is built from. */
  lemma {:induction false} ElementIsContent(e: Element)
    ensures ExtensionContent(Flatten(e))
    decreases e, 0
  {
    OpeningsDoNotClose(e.name, e.attributes);
    if e.Nest? {
      ElementsAreContent(e.children);
      NestIsContent(e.name, e.attributes, FlattenAll(e.children));
    }
  }

  lemma {:induction false} ElementsAreContent(es: seq<Element>)
    ensures ExtensionContent(FlattenAll(es))
    decreases es, 1
  {
    if es != [] {
      ElementIsContent(es[0]);
      ElementsAreContent(es[1..]);
    }
  }

  lemma {:induction false} PrintOne(t: Token)
    ensures Print([t]) == PrintToken(t)
  {
    assert [t][1..] == [];
    assert Print([]) == "";
  }

  lemma {:induction false} ExtensionsPrinted(inner: seq<Token>)
    ensures var ts := Around(inner);
            && |Print(ts[..1])| == |ExtOpen()| && At(Print(ts), ExtOpen(), 0)
            && |Print(ts)| == |Print(ts[..|ts| - 1])| + |ExtClose()|
  {
    var ts := Around(inner);
    var last := |ts| - 1;
    assert ts[..1] == [Tag(EXT_TAG)] && ts[..0] == [];
    PrintOne(Tag(EXT_TAG));
    PrintSplit(ts, 0);
    PrintSplit(ts, last);
    assert ts[last + 1..] == [];
  }

  lemma {:induction false} ContentMakesABlock(inner: seq<Token>)
    requires ExtensionContent(inner)
    ensures ExtensionsBlock(Print(Around(inner)))
  {
    var ts := Around(inner);
    var last := |ts| - 1;
    TagsArePlain();
    MarkerNames();
    ExtensionsPrinted(inner);
    FindTag(ts, "/" + EXT_TAG, 1, last);
    PrintGrows(ts, 1, last);
  }

  /** The code's own signature block: its first closing marker is its end, whoever the certificate's
      issuer says it is. */
  lemma {:induction false} ExtensionsAreABlock(parts: BlockParts)
    ensures ExtensionsBlock(BuildUblExtensions(parts))
  {
    hide DsSignature, Extension;
    var extension := Extension(DsSignature(parts));
    ElementIsContent(extension);
    ContentMakesABlock(Flatten(extension));
  }

  /** The QR marker is what the reference's first four tokens print. */
  lemma {:induction false} QrMarkerPrinted(ts: seq<Token>)
    requires |ts| >= 4 && ts[0] == Tag(REF_TAG) && ts[1] == Tag(ID) && ts[2] == Chars("QR") && ts[3] == Tag("/" + ID)
    ensures Print(ts[..4]) == QrOpen()
  {
    PrintNext(ts, 0);
    PrintNext(ts, 1);
    PrintNext(ts, 2);
    PrintNext(ts, 3);
    assert ts[..0] == [] && Print([]) == "";
    QrMarkerText("<" + REF_TAG + ">");
  }

  lemma {:induction false} QrMarkerText(open: string)
    ensures "" + open + ("<" + ID + ">") + "QR" + ("<" + ("/" + ID) + ">") == open + "<cbc:ID>QR</cbc:ID>"
  {
    assert ("<" + ID + ">") + "QR" + ("<" + ("/" + ID) + ">") == "<cbc:ID>QR</cbc:ID>";
  }

  lemma {:induction false} QrReferenceTags(qr: Markup)
    ensures var ts := QrReference(qr);
            && WellFormed(ts)
            && (forall i :: 0 <= i < |ts| ==> ts[i] != Tag(EXT_TAG))
            && (forall i :: 4 <= i < 9 ==> ts[i] != Tag("/" + REF_TAG))
  {
    hide Attribute;
    MarkerNames();
    NamesAreNotMarkers(ID, "");
    NamesAreNotMarkers(ATTACHMENT, "");
    var mime := Attribute("mimeCode", "text/plain");
    NamesAreNotMarkers(EMBEDDED_DOCUMENT_BINARY_OBJECT, mime);
    assert |REF_TAG| == 31 && |ATTACHMENT| == 14 && |EMBEDDED_DOCUMENT_BINARY_OBJECT| == 32;
    assert ("/" + REF_TAG)[0] == '/' && ATTACHMENT[0] == 'c';
    assert (EMBEDDED_DOCUMENT_BINARY_OBJECT + mime)[0] == EMBEDDED_DOCUMENT_BINARY_OBJECT[0] == 'c';
  }

  lemma {:induction false} QrReferenceIsABlock(qr: Markup)
    ensures QrBlock(BuildQrReference(qr))
  {
    var ts := QrReference(qr);
    TagsArePlain();
    QrReferenceTags(qr);
    QrMarkerPrinted(ts);
    PrintConcat(ts[..4], ts[4..]);
    assert ts == ts[..4] + ts[4..];
    PrintSplit(ts, 9);
    assert ts[10..] == [] && Print([]) == "";
    FindTag(ts, "/" + REF_TAG, 4, 9);
    PrintGrows(ts, 4, 9);
    QrHasNoExtensions(ts);
  }

  lemma {:induction false} QrHasNoExtensions(ts: seq<Token>)
    requires WellFormed(ts) && forall i :: 0 <= i < |ts| ==> ts[i] != Tag(EXT_TAG)
    ensures Find(Print(ts), ExtOpen(), 0) == -1
  {
    TagsArePlain();
    FindIsFirst(Print(ts), ExtOpen(), 0);
    var k := Find(Print(ts), ExtOpen(), 0);
    if k >= 0 {
      NoTagNoMatch(ts, EXT_TAG, k);
    }
  }

  // ---- the round trip, for every invoice ----

  /** Signing any invoice and stripping the result gives the invoice back, character for character;
      stripping the unsigned invoice changes nothing. */
  lemma {:induction false} StrippingUndoesSigning(inp: Input, parts: BlockParts, qr: Markup)
    requires ValidInput(inp)
    ensures var xml := BuildUblInvoice(inp);
            && Strip(xml) == xml
            && Sign(xml, BuildUblExtensions(parts), BuildQrReference(qr)).Some?
            && Strip(Sign(xml, BuildUblExtensions(parts), BuildQrReference(qr)).value) == xml
  {
    hide Tokens, UblExtensions, QrReference;
    var xml := BuildUblInvoice(inp);
    InvoiceIsSignable(inp);
    ExtensionsAreABlock(parts);
    QrReferenceIsABlock(qr);
    SignableStripsBack(xml, BuildUblExtensions(parts), BuildQrReference(qr));
    SignableStaysAsIs(xml);
  }
}
