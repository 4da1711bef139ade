/** Reading an invoice document: the counter value and the previous hash can be found again in its text,
    whatever the other fields are, by the first tag of their kind. The tokens printed before it decide. */
module EmbeddedFields {
  import opened Basics
  import opened Decimal
  import opened Text
  import opened Signing
  import opened UblInvoice
  import opened SignedInvoice

  function HashTag(): Markup {
    EMBEDDED_DOCUMENT_BINARY_OBJECT + Attribute("mimeCode", "text/plain")
  }

  /** The previous invoice hash a document carries. */
  function PreviousHashIn(xml: string): string {
    TextOf(xml, HashTag(), 0)
  }

  /** The counter value it carries, as text: the UUID element of its first document reference. */
  function CounterIn(xml: string): string {
    var reference := Find(xml, "<" + REF_TAG + ">", 0);
    if reference < 0 then "" else TextOf(xml, UUID, reference)
  }

  predicate Lacks(ts: seq<Token>, m: string) {
    forall i :: 0 <= i < |ts| ==> ts[i] != Tag(m)
  }

  /** The first element of its name from token `from` on is the one after `front`. */
  lemma {:induction false} ReadText(ts: seq<Token>, front: seq<Token>, from: nat, m: string, text: string,
                                    next: string, back: seq<Token>)
    requires ts == front + ([Tag(m), Chars(text), Tag(next)] + back)
    requires WellFormed(ts) && Plain(m) && from <= |front| && Lacks(front[from..], m)
    ensures TextOf(Print(ts), m, |Print(ts[..from])|) == text
  {
    var i := |front|;
    assert ts[i] == Tag(m) && ts[i + 1] == Chars(text) && ts[i + 2] == Tag(next);
    forall j | from <= j < i
      ensures ts[j] != Tag(m)
    {
      assert ts[j] == front[from..][j - from];
    }
    TextOfTag(ts, m, from, i);
  }

  lemma {:induction false} RenderAllConcat(a: seq<Node>, b: seq<Node>, indent: nat)
    ensures RenderAll(a + b, indent) == RenderAll(a, indent) + RenderAll(b, indent)
  {
    if a == [] {
      assert a + b == b;
    } else {
      RenderAllConcat(a[1..], b, indent);
      assert (a + b)[1..] == a[1..] + b;
      Regroup(Render(a[0], indent), RenderAll(a[1..], indent), RenderAll(b, indent));
    }
  }

  // ---- what comes before the two references ----

  /** A leaf whose tags are shorter than the hash tag. */
  predicate ShortLeaf(n: Node) {
    n.Leaf? && |n.name| + |n.attributes| < 50 && |n.name| < 49
  }

  predicate Short(ts: seq<Token>) {
    forall i :: 0 <= i < |ts| && ts[i].Tag? ==> |ts[i].body| < 50
  }

  lemma {:induction false} LeavesAreShort(ns: seq<Node>, indent: nat)
    requires forall i :: 0 <= i < |ns| ==> ShortLeaf(ns[i])
    ensures Short(RenderAll(ns, indent)) && Lacks(RenderAll(ns, indent), REF_TAG)
  {
    if ns != [] {
      LeavesAreShort(ns[1..], indent);
      assert ShortLeaf(ns[0]);
      NamesAreNotMarkers(ns[0].name, ns[0].attributes);
    }
  }

  lemma {:induction false} HeaderIsShort(inp: Input)
    requires ValidInput(inp)
    ensures forall i :: 0 <= i < |Header(inp)| ==> ShortLeaf(Header(inp)[i])
  {
  }

  // ---- reading the two references ----

  function CounterOpening(b: Token): seq<Token> {
    [Tag(REF_TAG), b, Tag(ID), Chars("ICV"), Tag("/" + ID), b]
  }

  /** The first element m inside the first element of another name. */
  lemma {:induction false} ReadInside(ts: seq<Token>, front: seq<Token>, outer: string, opening: seq<Token>,
                                      m: string, text: string, next: string, back: seq<Token>)
    requires WellFormed(ts) && Plain(outer) && Plain(m)
    requires ts == front + opening + ([Tag(m), Chars(text), Tag(next)] + back)
    requires opening != [] && opening[0] == Tag(outer) && Lacks(front, outer) && Lacks(opening, m)
    ensures var at := Find(Print(ts), "<" + outer + ">", 0);
            at >= 0 && TextOf(Print(ts), m, at) == text
  {
    hide WellFormed, TextOf, Find;
    var f := |front|;
    assert ts[f] == Tag(outer);
    forall j | 0 <= j < f
      ensures ts[j] != Tag(outer)
    {
      assert ts[j] == front[j];
    }
    FindTag(ts, outer, 0, f);
    assert ts[..0] == [] && Print([]) == "";
    assert (front + opening)[f..] == opening;
    ReadText(ts, front + opening, f, m, text, next, back);
  }

  lemma {:induction false} ReadCounter(ts: seq<Token>, front: seq<Token>, b: Token, icv: Markup, back: seq<Token>)
    requires WellFormed(ts) && b.Chars? && Lacks(front, REF_TAG)
    requires ts == front + CounterOpening(b) + ([Tag(UUID), Chars(icv), Tag("/" + UUID)] + back)
    ensures CounterIn(Print(ts)) == icv
  {
    hide WellFormed, TextOf, Find, Print, Plain;
    MarkerNames();
    CounterIsUnread(b);
    ReadInside(ts, front, REF_TAG, CounterOpening(b), UUID, icv, "/" + UUID, back);
  }

  lemma {:induction false} CounterIsUnread(b: Token)
    requires b.Chars?
    ensures Lacks(CounterOpening(b), UUID)
  {
    assert |UUID| == 8 && |ID| == 6 && |REF_TAG| == 31;
  }

  lemma {:induction false} HashTagIsLong()
    ensures |HashTag()| >= 50 && HashTag()[0] == 'c'
  {
    assert HashTag()[0] == EMBEDDED_DOCUMENT_BINARY_OBJECT[0];
  }

  lemma {:induction false} ReadHash(ts: seq<Token>, front: seq<Token>, hash: Markup, next: string, back: seq<Token>)
    requires WellFormed(ts) && Lacks(front, HashTag())
    requires ts == front + ([Tag(HashTag()), Chars(hash), Tag(next)] + back)
    ensures PreviousHashIn(Print(ts)) == hash
  {
    assert front[0..] == front;
    assert ts[..0] == [] && Print([]) == "";
    ReadText(ts, front, 0, HashTag(), hash, next, back);
  }

  // ---- the layout of the whole document ----

  function CounterNode(icv: Markup): Node {
    Reference([El(ID, "ICV"), El(UUID, icv)])
  }

  function HashNode(hash: Markup): Node {
    Reference([El(ID, "PIH"), Group(ATTACHMENT, [Leaf(EMBEDDED_DOCUMENT_BINARY_OBJECT,
      Attribute("mimeCode", "text/plain"), hash)])])
  }

  function Opening(declaration: Markup, namespaces: Markup): seq<Token> {
    [Tag(declaration), Chars("\n"), Tag("Invoice " + namespaces)]
  }

  lemma {:induction false} RenderParts(header: seq<Node>, counter: Node, hash: Node, rest: seq<Node>)
    ensures RenderAll(header + [counter] + [hash] + rest, 2)
         == RenderAll(header, 2) + Render(counter, 2) + Render(hash, 2) + RenderAll(rest, 2)
  {
    RenderAllConcat(header + [counter] + [hash], rest, 2);
    RenderAllConcat(header + [counter], [hash], 2);
    RenderAllConcat(header, [counter], 2);
    RenderOne(counter);
    RenderOne(hash);
  }

  lemma {:induction false} RegroupParts(o: seq<Token>, a: seq<Token>, b: seq<Token>, c: seq<Token>,
                                        d: seq<Token>, g: seq<Token>, e: seq<Token>)
    ensures o + (a + b + c + d) + g + e == o + a + b + c + (d + g + e)
  {
  }

  /** The document around its two references. */
  lemma {:induction false} Layout(declaration: Markup, namespaces: Markup, header: seq<Node>, counter: Node, hash: Node,
                                  rest: seq<Node>, noLines: bool) returns (back: seq<Token>)
    ensures Assemble(declaration, namespaces, RenderAll(header + [counter] + [hash] + rest, 2), noLines)
         == Opening(declaration, namespaces) + RenderAll(header, 2) + Render(counter, 2) + Render(hash, 2) + back
  {
    var gap: seq<Token> := if noLines then [Chars("\n")] else [];
    var end := [Chars("\n"), Tag("/Invoice")];
    back := RenderAll(rest, 2) + gap + end;
    RenderParts(header, counter, hash, rest);
    RegroupParts(Opening(declaration, namespaces), RenderAll(header, 2), Render(counter, 2), Render(hash, 2),
                 RenderAll(rest, 2), gap, end);
  }

  lemma {:induction false} RenderOne(n: Node)
    ensures RenderAll([n], 2) == Render(n, 2)
  {
    assert [n][1..] == [];
    assert RenderAll([], 2) == [];
  }

  lemma {:induction false} RenderCounter(icv: Markup)
    ensures Render(CounterNode(icv), 2)
         == [Break(2)] + CounterOpening(Break(4))
            + [Tag(UUID), Chars(icv), Tag("/" + UUID), Break(2), Tag("/" + REF_TAG)]
  {
    var c := [El(ID, "ICV"), El(UUID, icv)];
    assert c[1..] == [El(UUID, icv)] && c[1..][1..] == [];
    assert ID + "" == ID && UUID + "" == UUID;
    assert RenderAll(c, 4) == Render(c[0], 4) + RenderAll(c[1..], 4);
    assert RenderAll(c[1..], 4) == Render(c[1], 4) + RenderAll([], 4);
  }

  lemma {:induction false} RenderHash(hash: Markup)
    ensures Render(HashNode(hash), 2)
         == HashOpening() + [Tag(HashTag()), Chars(hash), Tag("/" + EMBEDDED_DOCUMENT_BINARY_OBJECT)]
            + [Break(4), Tag("/" + ATTACHMENT), Break(2), Tag("/" + REF_TAG)]
  {
    hide IsName;
    var leaf := Leaf(EMBEDDED_DOCUMENT_BINARY_OBJECT, Attribute("mimeCode", "text/plain"), hash);
    var inner := Group(ATTACHMENT, [leaf]);
    var c := [El(ID, "PIH"), inner];
    assert c[1..] == [inner] && c[1..][1..] == [];
    assert [leaf][1..] == [];
    assert ID + "" == ID;
    assert RenderAll([leaf], 6) == Render(leaf, 6) + RenderAll([], 6);
    assert RenderAll(c, 4) == Render(c[0], 4) + RenderAll([inner], 4);
    assert RenderAll([inner], 4) == Render(inner, 4) + RenderAll([], 4);
  }

  function HashOpening(): seq<Token> {
    [Break(2), Tag(REF_TAG), Break(4), Tag(ID), Chars("PIH"), Tag("/" + ID), Break(4), Tag(ATTACHMENT), Break(6)]
  }

  lemma {:induction false} OpeningLacks(declaration: Markup, namespaces: Markup)
    requires declaration != "" && declaration[0] == '?'
    ensures Lacks(Opening(declaration, namespaces), REF_TAG) && Lacks(Opening(declaration, namespaces), HashTag())
  {
    HashTagIsLong();
    assert ("Invoice " + namespaces)[0] == "Invoice "[0] == 'I' && REF_TAG[0] == 'c';
  }

  lemma {:induction false} LacksConcat(a: seq<Token>, b: seq<Token>, m: string)
    requires Lacks(a, m) && Lacks(b, m)
    ensures Lacks(a + b, m)
  {
  }

  lemma {:induction false} ShortLacksHash(ts: seq<Token>)
    requires Short(ts)
    ensures Lacks(ts, HashTag())
  {
    HashTagIsLong();
  }

  lemma {:induction false} CounterAt(ts: seq<Token>, front: seq<Token>, icv: Markup, after: seq<Token>)
    requires WellFormed(ts) && Lacks(front, REF_TAG)
    requires ts == front + Render(CounterNode(icv), 2) + after
    ensures CounterIn(Print(ts)) == icv
  {
    RenderCounter(icv);
    var closing := [Break(2), Tag("/" + REF_TAG)];
    LacksConcat(front, [Break(2)], REF_TAG);
    assert ts == (front + [Break(2)]) + CounterOpening(Break(4))
                 + ([Tag(UUID), Chars(icv), Tag("/" + UUID)] + (closing + after));
    ReadCounter(ts, front + [Break(2)], Break(4), icv, closing + after);
  }

  lemma {:induction false} HashAt(ts: seq<Token>, front: seq<Token>, hash: Markup, rendered: seq<Token>,
                                  after: seq<Token>)
    requires WellFormed(ts) && Lacks(front, HashTag())
    requires rendered == HashOpening() + [Tag(HashTag()), Chars(hash), Tag("/" + EMBEDDED_DOCUMENT_BINARY_OBJECT)]
                         + [Break(4), Tag("/" + ATTACHMENT), Break(2), Tag("/" + REF_TAG)]
    requires ts == front + rendered + after
    ensures PreviousHashIn(Print(ts)) == hash
  {
    var closing := [Break(4), Tag("/" + ATTACHMENT), Break(2), Tag("/" + REF_TAG)];
    assert |ID| == 6 && |REF_TAG| == 31 && |ATTACHMENT| == 14;
    ShortLacksHash(HashOpening());
    LacksConcat(front, HashOpening(), HashTag());
    assert ts == (front + HashOpening())
                 + ([Tag(HashTag()), Chars(hash), Tag("/" + EMBEDDED_DOCUMENT_BINARY_OBJECT)] + (closing + after));
    ReadHash(ts, front + HashOpening(), hash, "/" + EMBEDDED_DOCUMENT_BINARY_OBJECT, closing + after);
  }

  lemma {:induction false} CounterIsShort(icv: Markup)
    ensures Short(Render(CounterNode(icv), 2))
  {
    RenderCounter(icv);
    assert |UUID| == 8 && |ID| == 6 && |REF_TAG| == 31;
  }

  lemma {:induction false} ReadBoth(ts: seq<Token>, opening: seq<Token>, header: seq<Token>, icv: Markup, hash: Markup,
                                    rendered: seq<Token>, back: seq<Token>)
    requires WellFormed(ts) && Lacks(opening, REF_TAG) && Lacks(opening, HashTag())
    requires Short(header) && Lacks(header, REF_TAG)
    requires rendered == Render(HashNode(hash), 2)
    requires ts == opening + header + Render(CounterNode(icv), 2) + rendered + back
    ensures CounterIn(Print(ts)) == icv && PreviousHashIn(Print(ts)) == hash
  {
    var counter := Render(CounterNode(icv), 2);
    LacksConcat(opening, header, REF_TAG);
    Regroup(opening + header + counter, rendered, back);
    CounterAt(ts, opening + header, icv, rendered + back);
    ShortLacksHash(header);
    LacksConcat(opening, header, HashTag());
    CounterIsShort(icv);
    ShortLacksHash(counter);
    LacksConcat(opening + header, counter, HashTag());
    RenderHash(hash);
    HashAt(ts, opening + header + counter, hash, rendered, back);
  }

  /** Every invoice document carries its counter value and its predecessor's hash where a reader
      looks for them, whatever its other fields say. */
  lemma {:induction false} InvoiceEmbedsItsPlace(inp: Input)
    requires ValidInput(inp)
    ensures CounterIn(BuildUblInvoice(inp)) == Digits(inp.icv)
    ensures PreviousHashIn(BuildUblInvoice(inp)) == inp.previousHash
  {
    hide Render, RenderAll, Remainder, Lacks, Short, WellFormed, CounterIn, PreviousHashIn, Print;
    TokensFacts(inp);
    DeclarationStarts();
    OpeningLacks(Declaration(), Namespaces());
    HeaderIsShort(inp);
    LeavesAreShort(Header(inp), 2);
    var back := Layout(Declaration(), Namespaces(), Header(inp), CounterReference(inp), HashReference(inp),
                       Remainder(inp), inp.lines == []);
    ReadBoth(Tokens(inp), Opening(Declaration(), Namespaces()), RenderAll(Header(inp), 2), Number(inp.icv),
             inp.previousHash, Render(HashReference(inp), 2), back);
  }

  /** So documents of different places in a chain differ. */
  lemma {:induction false} DocumentsDifferByPlace(a: Input, b: Input)
    requires ValidInput(a) && ValidInput(b) && BuildUblInvoice(a) == BuildUblInvoice(b)
    ensures a.icv == b.icv && a.previousHash == b.previousHash
  {
    hide Tokens;
    InvoiceEmbedsItsPlace(a);
    InvoiceEmbedsItsPlace(b);
    ValueOfDigits(a.icv);
    ValueOfDigits(b.icv);
  }
}
