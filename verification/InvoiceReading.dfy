/** What a reader finds in an invoice document: its number and dates, the parties, the totals and the
    lines, each in its own element. The readers search the text; the proofs follow the template's tree,
    showing of each element that nothing before it in its group carries its tag. */
module InvoiceReading {
  import opened Basics
  import opened Decimal
  import opened Text
  import opened Signing
  import opened UblInvoice
  import opened SignedInvoice
  import opened EmbeddedFields
  import opened Pieces

  // ---- nodes and the tags in them ----

  /** Every name in the node is apart from m, so no tag in it is m. */
  ghost predicate NodeApart(n: Node, m: string)
    decreases n, 0
  {
    match n
    case Leaf(name, _, _) => Apart(name, m)
    case Wrapped(outer, name, _) => Apart(outer, m) && Apart(name, m)
    case Gap => true
    case Group(name, children) => Apart(name, m) && NodesApart(children, m)
    case Reference(children) => Apart(REF_TAG, m) && NodesApart(children, m)
  }

  ghost predicate NodesApart(ns: seq<Node>, m: string)
    decreases ns, 1
  {
    ns == [] || (NodeApart(ns[0], m) && NodesApart(ns[1..], m))
  }

  lemma {:induction false} TagsApart(name: string, attributes: string, m: string)
    requires Apart(name, m) && m != "" && m[0] != '/'
    ensures name + attributes != m && "/" + name != m && name != m
  {
    ApartDiffer(name, attributes, m);
    assert name + "" == name;
    ApartDiffer(name, "", m);
    assert ("/" + name)[0] == '/';
  }

  lemma {:induction false} EncloseLacks(name: string, inner: seq<Token>, indent: nat, m: string)
    requires Apart(name, m) && m != "" && m[0] != '/' && Lacks(inner, m)
    ensures Lacks(Enclose(name, inner, indent), m)
  {
    TagsApart(name, "", m);
  }

  lemma {:induction false} ApartLacks(n: Node, indent: nat, m: string)
    requires NodeApart(n, m) && m != "" && m[0] != '/'
    ensures Lacks(Render(n, indent), m)
    decreases n, 0
  {
    match n
    case Leaf(name, attributes, _) => TagsApart(name, attributes, m);
    case Wrapped(outer, name, _) =>
      TagsApart(outer, "", m);
      TagsApart(name, "", m);
    case Gap =>
    case Group(name, children) =>
      AllApartLack(children, indent + 2, m);
      EncloseLacks(name, RenderAll(children, indent + 2), indent, m);
    case Reference(children) =>
      AllApartLack(children, indent + 2, m);
      EncloseLacks(REF_TAG, RenderAll(children, indent + 2), indent, m);
  }

  lemma {:induction false} AllApartLack(ns: seq<Node>, indent: nat, m: string)
    requires NodesApart(ns, m) && m != "" && m[0] != '/'
    ensures Lacks(RenderAll(ns, indent), m)
    decreases ns, 1
  {
    if ns != [] {
      ApartLacks(ns[0], indent, m);
      AllApartLack(ns[1..], indent, m);
      LacksConcat(Render(ns[0], indent), RenderAll(ns[1..], indent), m);
    }
  }

  // ---- finding a node in others ----

  lemma {:induction false} LeafIsThere(name: Name, attributes: Attributes, text: Markup, indent: nat)
    ensures Contains(Render(Leaf(name, attributes, text), indent),
                     [Tag(name + attributes), Chars(text), Tag("/" + name)])
  {
    var part := [Tag(name + attributes), Chars(text), Tag("/" + name)];
    assert Render(Leaf(name, attributes, text), indent) == [Break(indent)] + part + [];
    assert Lacks([Break(indent)], name + attributes);
  }

  /** A group without the white space before it. */
  function Piece(n: Node, indent: nat): seq<Token>
    requires n.Group?
  {
    [Tag(n.name)] + (RenderAll(n.children, indent + 2) + [Break(indent), Tag("/" + n.name)])
  }

  lemma {:induction false} GroupIsThere(n: Node, indent: nat)
    requires n.Group?
    ensures Contains(Render(n, indent), Piece(n, indent))
  {
    assert Render(n, indent) == [Break(indent)] + Piece(n, indent) + [];
    assert Lacks([Break(indent)], n.name);
  }

  /** One of several nodes, past nodes apart from it. */
  lemma {:induction false} AmongNodes(ns: seq<Node>, k: nat, indent: nat, part: seq<Token>)
    requires k < |ns| && Contains(Render(ns[k], indent), part)
    requires var m := part[0].body; m != "" && m[0] != '/' && NodesApart(ns[..k], m)
    ensures Contains(RenderAll(ns, indent), part)
  {
    var m := part[0].body;
    RenderAllConcat(ns[..k], ns[k..], indent);
    assert ns == ns[..k] + ns[k..] && ns[k..][0] == ns[k] && ns[k..][1..] == ns[k + 1..];
    AllApartLack(ns[..k], indent, m);
    var a, b, c := RenderAll(ns[..k], indent), Render(ns[k], indent), RenderAll(ns[k + 1..], indent);
    Regroup(a, b, c);
    ContainsWithin(a, b, c, part);
  }

  lemma {:induction false} InGroup(n: Node, indent: nat, part: seq<Token>)
    requires n.Group? && Contains(RenderAll(n.children, indent + 2), part) && n.name != part[0].body
    ensures Contains(Render(n, indent), part) && Contains(Piece(n, indent), part)
  {
    var inner := RenderAll(n.children, indent + 2);
    var end := [Break(indent), Tag("/" + n.name)];
    assert Lacks([Tag(n.name)], part[0].body) && Lacks([Break(indent), Tag(n.name)], part[0].body);
    ContainsWithin([Tag(n.name)], inner, end, part);
    assert Piece(n, indent) == [Tag(n.name)] + inner + end;
    ContainsWithin([Break(indent), Tag(n.name)], inner, end, part);
    assert Render(n, indent) == [Break(indent), Tag(n.name)] + inner + end;
  }

  /** Anything in the content is in the document around it. */
  lemma {:induction false} InAssembled(declaration: Markup, namespaces: Markup, content: seq<Token>, noLines: bool,
                                       part: seq<Token>)
    requires Contains(content, part) && part[0].body != "" && part[0].body[0] == 'c'
    requires declaration != "" && declaration[0] == '?'
    ensures Contains(Assemble(declaration, namespaces, content, noLines), part)
  {
    var root := Tag("Invoice " + namespaces);
    var front := [Tag(declaration), Chars("\n"), root];
    assert root.body[0] == "Invoice "[0] == 'I';
    assert Lacks(front, part[0].body);
    hide Contains;
    var gap: seq<Token> := if noLines then [Chars("\n")] else [];
    var back := gap + [Chars("\n"), Tag("/Invoice")];
    assert Assemble(declaration, namespaces, content, noLines) == front + content + back;
    ContainsWithin(front, content, back, part);
  }

  // ---- the names of the template ----

  /** A name "cbc:..." in the template. */
  predicate Basic(name: string) {
    |name| > 5 && name[0] == 'c' && name[1] == 'b'
  }

  /** A name "cac:..." whose fifth letter is c. */
  predicate Aggregate(name: string, c: char) {
    |name| > 7 && name[0] == 'c' && name[1] == 'a' && name[4] == c
  }

  lemma {:induction false} HeaderNames()
    ensures Basic(PROFILE_ID) && Basic(ID) && Basic(UUID) && Basic(ISSUE_DATE) && Basic(ISSUE_TIME)
    ensures Basic(INVOICE_TYPE_CODE) && Basic(DOCUMENT_CURRENCY_CODE) && Basic(TAX_CURRENCY_CODE)
    ensures Basic(EMBEDDED_DOCUMENT_BINARY_OBJECT)
    ensures PROFILE_ID[4] == 'P' && ID[4] == 'I' && ID[5] == 'D' && UUID[4] == 'U'
    ensures |ISSUE_DATE| > 9 && ISSUE_DATE[4] == 'I' && ISSUE_DATE[5] == 's' && ISSUE_DATE[9] == 'D'
    ensures |ISSUE_TIME| > 9 && ISSUE_TIME[4] == 'I' && ISSUE_TIME[5] == 's' && ISSUE_TIME[9] == 'T'
    ensures INVOICE_TYPE_CODE[4] == 'I' && INVOICE_TYPE_CODE[5] == 'n' && DOCUMENT_CURRENCY_CODE[4] == 'D'
  {
  }

  lemma {:induction false} PartyNames()
    ensures Basic(STREET_NAME) && Basic(IDENTIFICATION_CODE) && Basic(COMPANY_ID) && Basic(REGISTRATION_NAME)
    ensures Aggregate(PARTY, 'P') && Aggregate(PARTY_IDENTIFICATION, 'P') && Aggregate(POSTAL_ADDRESS, 'P')
    ensures Aggregate(COUNTRY, 'C') && Aggregate(PARTY_TAX_SCHEME, 'P') && Aggregate(PARTY_LEGAL_ENTITY, 'P')
    ensures Aggregate(TAX_SCHEME, 'T') && TAX_SCHEME[7] == 'S' && |TAX_SCHEME| > 8 && TAX_SCHEME[8] == 'c'
    ensures STREET_NAME[4] == 'S' && IDENTIFICATION_CODE[4] == 'I' && COMPANY_ID[4] == 'C'
    ensures REGISTRATION_NAME[4] == 'R'
  {
  }

  lemma {:induction false} GroupNames()
    ensures Aggregate(REF_TAG, 'A') && REF_TAG[5] == 'd' && Aggregate(ATTACHMENT, 'A') && ATTACHMENT[5] == 't'
    ensures Aggregate(ACCOUNTING_SUPPLIER_PARTY, 'A') && ACCOUNTING_SUPPLIER_PARTY[5] == 'c'
    ensures Aggregate(ACCOUNTING_CUSTOMER_PARTY, 'A') && ACCOUNTING_CUSTOMER_PARTY[5] == 'c'
    ensures |ACCOUNTING_SUPPLIER_PARTY| == 27 && ACCOUNTING_SUPPLIER_PARTY[14] == 'S'
    ensures |ACCOUNTING_CUSTOMER_PARTY| == 27 && ACCOUNTING_CUSTOMER_PARTY[14] == 'C'
    ensures Aggregate(TAX_TOTAL, 'T') && TAX_TOTAL[7] == 'T' && Aggregate(LEGAL_MONETARY_TOTAL, 'L')
    ensures Aggregate(INVOICE_LINE, 'I')
  {
  }

  lemma {:induction false} TotalNames()
    ensures Aggregate(TAX_SUBTOTAL, 'T') && Aggregate(TAX_CATEGORY, 'T')
    ensures Basic(TAX_AMOUNT) && Basic(TAXABLE_AMOUNT) && Basic(PERCENT) && Basic(LINE_EXTENSION_AMOUNT)
    ensures Basic(TAX_EXCLUSIVE_AMOUNT) && Basic(TAX_INCLUSIVE_AMOUNT) && Basic(PREPAID_AMOUNT) && Basic(PAYABLE_AMOUNT)
    ensures |TAX_AMOUNT| > 7 && TAX_AMOUNT[4] == 'T' && TAX_AMOUNT[7] == 'A'
    ensures |TAXABLE_AMOUNT| > 7 && TAXABLE_AMOUNT[4] == 'T' && TAXABLE_AMOUNT[7] == 'a'
    ensures LINE_EXTENSION_AMOUNT[4] == 'L'
    ensures |TAX_EXCLUSIVE_AMOUNT| > 7 && TAX_EXCLUSIVE_AMOUNT[4] == 'T' && TAX_EXCLUSIVE_AMOUNT[7] == 'E'
    ensures |TAX_INCLUSIVE_AMOUNT| > 7 && TAX_INCLUSIVE_AMOUNT[4] == 'T' && TAX_INCLUSIVE_AMOUNT[7] == 'I'
    ensures PREPAID_AMOUNT[4] == 'P' && PREPAID_AMOUNT[5] == 'r' && PAYABLE_AMOUNT[4] == 'P' && PAYABLE_AMOUNT[5] == 'a'
  {
  }

  lemma {:induction false} BasicApart(name: string, m: string)
    requires Basic(name) && |m| > 1 && m[1] == 'a'
    ensures Apart(name, m)
  {
    ApartAt(name, m, 1);
  }

  lemma {:induction false} AggregateApart(name: string, c: char, m: string)
    requires Aggregate(name, c) && |m| > 4 && m[4] != c
    ensures Apart(name, m)
  {
    ApartAt(name, m, 4);
  }

  // ---- lists of nodes ----

  lemma {:induction false} NodesConcat(a: seq<Node>, b: seq<Node>, m: string)
    requires NodesApart(a, m) && NodesApart(b, m)
    ensures NodesApart(a + b, m)
  {
    if a == [] {
      assert a + b == b;
    } else {
      NodesConcat(a[1..], b, m);
      assert (a + b)[1..] == a[1..] + b;
    }
  }

  lemma {:induction false} OneNode(n: Node, m: string)
    requires NodeApart(n, m)
    ensures NodesApart([n], m)
  {
    assert [n][1..] == [];
  }

  lemma {:induction false} NodesAre(ns: seq<Node>, m: string)
    requires forall i :: 0 <= i < |ns| ==> NodeApart(ns[i], m)
    ensures NodesApart(ns, m)
  {
    if ns != [] {
      NodesAre(ns[1..], m);
    }
  }

  // ---- what the parts of the template are apart from ----

  lemma {:induction false} HeaderApart(inp: Input, m: string)
    requires ValidInput(inp) && |m| > 1 && m[1] == 'a'
    ensures NodesApart(Header(inp), m)
  {
    hide Apart;
    HeaderNames();
    forall i | 0 <= i < |Header(inp)|
      ensures NodeApart(Header(inp)[i], m)
    {
      BasicApart(Header(inp)[i].name, m);
    }
    NodesAre(Header(inp), m);
  }

  lemma {:induction false} ReferencesApart(inp: Input, m: string)
    requires ValidInput(inp) && |m| > 5 && m[1] == 'a' && (m[4] != 'A' || m[5] == 'c')
    ensures NodeApart(CounterReference(inp), m) && NodeApart(HashReference(inp), m)
  {
    hide Apart, Basic;
    HeaderNames();
    GroupNames();
    ApartAt(REF_TAG, m, if m[4] != 'A' then 4 else 5);
    ApartAt(ATTACHMENT, m, if m[4] != 'A' then 4 else 5);
    BasicApart(ID, m);
    BasicApart(UUID, m);
    BasicApart(EMBEDDED_DOCUMENT_BINARY_OBJECT, m);
    NodesAre(CounterReference(inp).children, m);
    var attachment := HashReference(inp).children[1];
    NodesAre(attachment.children, m);
    NodesAre(HashReference(inp).children, m);
  }

  predicate PastParties(m: string) {
    |m| > 8 && m[1] == 'a' && m[4] != 'P' && m[4] != 'C' && (m[4] != 'T' || m[7] != 'S' || m[8] != 'c')
  }

  lemma {:induction false} SchemeApart(m: string)
    requires PastParties(m)
    ensures Apart(TAX_SCHEME, m) && Apart(ID, m)
  {
    PartyNames();
    HeaderNames();
    ApartAt(TAX_SCHEME, m, if m[4] != 'T' then 4 else if m[7] != 'S' then 7 else 8);
    BasicApart(ID, m);
  }

  lemma {:induction false} AddressApart(street: Markup, m: string)
    requires PastParties(m)
    ensures NodeApart(Group(POSTAL_ADDRESS, [El(STREET_NAME, street), Wrapped(COUNTRY, IDENTIFICATION_CODE, "SA")]), m)
  {
    hide Apart;
    PartyNames();
    AggregateApart(POSTAL_ADDRESS, 'P', m);
    AggregateApart(COUNTRY, 'C', m);
    BasicApart(STREET_NAME, m);
    BasicApart(IDENTIFICATION_CODE, m);
    GroupApart(POSTAL_ADDRESS, [El(STREET_NAME, street), Wrapped(COUNTRY, IDENTIFICATION_CODE, "SA")], m);
  }

  /** The tax scheme and legal entity of a party. */
  lemma {:induction false} PartyPartsApart(number: Markup, name: Markup, m: string)
    requires PastParties(m)
    ensures NodeApart(Group(PARTY_TAX_SCHEME, [El(COMPANY_ID, number), VAT_SCHEME]), m)
    ensures NodeApart(Group(PARTY_LEGAL_ENTITY, [El(REGISTRATION_NAME, name)]), m)
    ensures Apart(PARTY, m)
  {
    hide Apart;
    PartyNames();
    SchemeApart(m);
    AggregateApart(PARTY, 'P', m);
    AggregateApart(PARTY_TAX_SCHEME, 'P', m);
    AggregateApart(PARTY_LEGAL_ENTITY, 'P', m);
    BasicApart(COMPANY_ID, m);
    BasicApart(REGISTRATION_NAME, m);
    GroupApart(PARTY_TAX_SCHEME, [El(COMPANY_ID, number), VAT_SCHEME], m);
    GroupApart(PARTY_LEGAL_ENTITY, [El(REGISTRATION_NAME, name)], m);
  }

  lemma {:induction false} SupplierApart(seller: Seller, m: string)
    requires PastParties(m)
    ensures NodeApart(SupplierParty(seller), m)
  {
    hide Apart, Escaped;
    PartyNames();
    SchemeApart(m);
    AggregateApart(PARTY_IDENTIFICATION, 'P', m);
    var children := SupplierParty(seller).children;
    GroupApart(PARTY_IDENTIFICATION, children[0].children, m);
    hide NodeApart;
    AddressApart(Escaped(if seller.address.Some? then seller.address.value else "N/A"), m);
    PartyPartsApart(Escaped(seller.vatNumber), Escaped(seller.name), m);
    GroupApart(PARTY, children, m);
  }

  lemma {:induction false} CustomerApart(buyer: Buyer, m: string)
    requires PastParties(m)
    ensures NodeApart(CustomerParty(buyer), m)
  {
    hide Apart, Escaped, NodeApart;
    PartyPartsApart(Escaped(if buyer.vatNumber.Some? then buyer.vatNumber.value else ""), Escaped(buyer.name), m);
    GapApart(m);
    GroupApart(PARTY, CustomerParty(buyer).children, m);
  }

  lemma {:induction false} GapApart(m: string)
    ensures NodeApart(Gap, m)
  {
  }

  lemma {:induction false} PartiesApart(inp: Input, m: string)
    requires PastParties(m) && m[4] != 'A'
    ensures NodeApart(Group(ACCOUNTING_SUPPLIER_PARTY, [SupplierParty(inp.seller)]), m)
    ensures NodeApart(Group(ACCOUNTING_CUSTOMER_PARTY, [CustomerParty(inp.buyer)]), m)
  {
    hide SupplierParty, CustomerParty, Apart;
    GroupNames();
    SupplierApart(inp.seller, m);
    CustomerApart(inp.buyer, m);
    OneNode(SupplierParty(inp.seller), m);
    OneNode(CustomerParty(inp.buyer), m);
    AggregateApart(ACCOUNTING_SUPPLIER_PARTY, 'A', m);
    AggregateApart(ACCOUNTING_CUSTOMER_PARTY, 'A', m);
  }

  lemma {:induction false} GroupApart(name: Name, children: seq<Node>, m: string)
    requires Apart(name, m) && forall i :: 0 <= i < |children| ==> NodeApart(children[i], m)
    ensures NodeApart(Group(name, children), m)
  {
    NodesAre(children, m);
  }

  lemma {:induction false} ElApart(name: Name, text: Markup, m: string)
    requires Apart(name, m)
    ensures NodeApart(El(name, text), m)
  {
  }

  lemma {:induction false} WrappedApart(outer: Name, name: Name, text: Markup, m: string)
    requires Apart(outer, m) && Apart(name, m)
    ensures NodeApart(Wrapped(outer, name, text), m)
  {
  }

  lemma {:induction false} CategoryNames()
    ensures Aggregate(TAX_CATEGORY, 'T') && Aggregate(TAX_SCHEME, 'T') && Basic(ID) && Basic(PERCENT)
  {
  }

  lemma {:induction false} CategoryApart(code: Markup, rate: Markup, scheme: Markup, m: string)
    requires |m| > 4 && m[1] == 'a' && m[4] != 'T'
    ensures NodeApart(Group(TAX_CATEGORY, [El(ID, code), El(PERCENT, rate), Wrapped(TAX_SCHEME, ID, scheme)]), m)
  {
    hide Apart, NodeApart, El, Basic, Aggregate, IsName, Plain;
    CategoryNames();
    AggregateApart(TAX_CATEGORY, 'T', m);
    AggregateApart(TAX_SCHEME, 'T', m);
    BasicApart(ID, m);
    BasicApart(PERCENT, m);
    ElApart(ID, code, m);
    ElApart(PERCENT, rate, m);
    WrappedApart(TAX_SCHEME, ID, scheme, m);
    GroupApart(TAX_CATEGORY, [El(ID, code), El(PERCENT, rate), Wrapped(TAX_SCHEME, ID, scheme)], m);
  }

  lemma {:induction false} AmountApart(name: Name, currency: Markup, halalas: int, m: string)
    requires Apart(name, m)
    ensures NodeApart(Amount(name, currency, halalas), m)
  {
  }

  lemma {:induction false} TotalsApart(inp: Input, m: string)
    requires ValidInput(inp) && |m| > 4 && m[1] == 'a' && m[4] != 'T'
    ensures NodeApart(Totals(inp), m)
  {
    hide Apart, Amount, NodeApart, Basic, Aggregate;
    TotalNames();
    GroupNames();
    BasicApart(TAX_AMOUNT, m);
    BasicApart(TAXABLE_AMOUNT, m);
    AmountApart(TAX_AMOUNT, inp.currency, inp.totalVat, m);
    AmountApart(TAXABLE_AMOUNT, inp.currency, inp.totalNet, m);
    var category := Totals(inp).children[1].children[2].children;
    CategoryApart(category[0].text, category[1].text, category[2].text, m);
    AggregateApart(TAX_SUBTOTAL, 'T', m);
    AggregateApart(TAX_TOTAL, 'T', m);
    var subtotal := Totals(inp).children[1];
    GroupApart(TAX_SUBTOTAL, subtotal.children, m);
    GroupApart(TAX_TOTAL, Totals(inp).children, m);
  }

  lemma {:induction false} MonetaryApart(inp: Input, m: string)
    requires ValidInput(inp) && |m| > 4 && m[1] == 'a' && m[4] != 'L'
    ensures NodeApart(MonetaryTotal(inp), m)
  {
    hide Apart, Amount, NodeApart, Basic, Aggregate, IsName;
    TotalNames();
    GroupNames();
    AggregateApart(LEGAL_MONETARY_TOTAL, 'L', m);
    BasicApart(LINE_EXTENSION_AMOUNT, m);
    BasicApart(TAX_EXCLUSIVE_AMOUNT, m);
    BasicApart(TAX_INCLUSIVE_AMOUNT, m);
    BasicApart(PREPAID_AMOUNT, m);
    BasicApart(PAYABLE_AMOUNT, m);
    var prepaid := if inp.prepaid.Some? then inp.prepaid.value else 0;
    AmountApart(LINE_EXTENSION_AMOUNT, inp.currency, inp.totalNet, m);
    AmountApart(TAX_EXCLUSIVE_AMOUNT, inp.currency, inp.totalNet, m);
    AmountApart(TAX_INCLUSIVE_AMOUNT, inp.currency, inp.totalGross, m);
    AmountApart(PREPAID_AMOUNT, inp.currency, prepaid, m);
    AmountApart(PAYABLE_AMOUNT, inp.currency, inp.totalGross - prepaid, m);
    GroupApart(LEGAL_MONETARY_TOTAL, MonetaryTotal(inp).children, m);
  }

  // ---- where the groups stand ----

  /** A group among others, when every node before it is apart from its name. */
  lemma {:induction false} GroupAt(ns: seq<Node>, k: nat)
    requires k < |ns| && ns[k].Group? && NodesApart(ns[..k], ns[k].name) && ns[k].name[0] != '/'
    ensures Contains(RenderAll(ns, 2), Piece(ns[k], 2))
  {
    hide Contains;
    GroupIsThere(ns[k], 2);
    AmongNodes(ns, k, 2, Piece(ns[k], 2));
  }

  /** The first of these groups in the body, when what precedes it is apart from it. */
  lemma {:induction false} GroupAfter(before: seq<Node>, n: Node, rest: seq<Node>)
    requires n.Group? && NodesApart(before, n.name) && n.name[0] != '/'
    ensures Contains(RenderAll(before + [n] + rest, 2), Piece(n, 2))
  {
    hide Contains, Piece, NodesApart;
    var ns := before + [n] + rest;
    assert ns[..|before|] == before && ns[|before|] == n;
    GroupAt(ns, |before|);
  }

  lemma {:induction false} OneMore(before: seq<Node>, n: Node, m: string)
    requires NodesApart(before, m) && NodeApart(n, m)
    ensures NodesApart(before + [n], m)
  {
    OneNode(n, m);
    NodesConcat(before, [n], m);
  }

  function SupplierGroup(seller: Seller): Node {
    Group(ACCOUNTING_SUPPLIER_PARTY, [SupplierParty(seller)])
  }

  function CustomerGroup(buyer: Buyer): Node {
    Group(ACCOUNTING_CUSTOMER_PARTY, [CustomerParty(buyer)])
  }

  /** The body as the template lists it. */
  function Listed(header: seq<Node>, counter: Node, hash: Node, supplier: Node, customer: Node, totals: Node,
                  monetary: Node, lines: seq<Node>): seq<Node> {
    header + [counter] + [hash] + ([supplier, customer, totals, monetary] + lines)
  }

  lemma {:induction false} FourGroups(header: seq<Node>, counter: Node, hash: Node, supplier: Node, customer: Node,
                                      totals: Node, monetary: Node, lines: seq<Node>)
    requires supplier.Group? && supplier.name[0] != '/' && customer.Group? && customer.name[0] != '/'
    requires totals.Group? && totals.name[0] != '/' && monetary.Group? && monetary.name[0] != '/'
    requires forall n :: n in [supplier, customer, totals, monetary] ==>
               NodesApart(header, n.name) && NodeApart(counter, n.name) && NodeApart(hash, n.name)
    requires NodeApart(supplier, customer.name)
    requires NodeApart(supplier, totals.name) && NodeApart(customer, totals.name)
    requires NodeApart(supplier, monetary.name) && NodeApart(customer, monetary.name)
    requires NodeApart(totals, monetary.name)
    ensures var body := Listed(header, counter, hash, supplier, customer, totals, monetary, lines);
            && Contains(RenderAll(body, 2), Piece(supplier, 2)) && Contains(RenderAll(body, 2), Piece(customer, 2))
            && Contains(RenderAll(body, 2), Piece(totals, 2)) && Contains(RenderAll(body, 2), Piece(monetary, 2))
  {
    hide Contains, Piece, NodesApart, NodeApart, RenderAll;
    var body := Listed(header, counter, hash, supplier, customer, totals, monetary, lines);
    var front := header + [counter] + [hash];
    forall n | n in [supplier, customer, totals, monetary]
      ensures NodesApart(front, n.name)
    {
      OneMore(header, counter, n.name);
      OneMore(header + [counter], hash, n.name);
    }
    assert supplier in [supplier, customer, totals, monetary] && customer in [supplier, customer, totals, monetary];
    assert totals in [supplier, customer, totals, monetary] && monetary in [supplier, customer, totals, monetary];
    GroupAfter(front, supplier, [customer, totals, monetary] + lines);
    assert body == front + [supplier] + ([customer, totals, monetary] + lines);
    OneMore(front, supplier, customer.name);
    GroupAfter(front + [supplier], customer, [totals, monetary] + lines);
    assert body == front + [supplier] + [customer] + ([totals, monetary] + lines);
    OneMore(front, supplier, totals.name);
    OneMore(front + [supplier], customer, totals.name);
    GroupAfter(front + [supplier] + [customer], totals, [monetary] + lines);
    assert body == front + [supplier] + [customer] + [totals] + ([monetary] + lines);
    OneMore(front, supplier, monetary.name);
    OneMore(front + [supplier], customer, monetary.name);
    OneMore(front + [supplier] + [customer], totals, monetary.name);
    GroupAfter(front + [supplier] + [customer] + [totals], monetary, lines);
    assert body == front + [supplier] + [customer] + [totals] + [monetary] + lines;
  }

  lemma {:induction false} SupplierIsApart(seller: Seller, m: string)
    requires PastParties(m) && (m[4] != 'A' || m == ACCOUNTING_CUSTOMER_PARTY)
    ensures NodeApart(SupplierGroup(seller), m)
  {
    hide SupplierParty, NodeApart, Apart;
    GroupNames();
    SupplierApart(seller, m);
    ApartAt(ACCOUNTING_SUPPLIER_PARTY, m, if m[4] != 'A' then 4 else 14);
    GroupApart(ACCOUNTING_SUPPLIER_PARTY, [SupplierParty(seller)], m);
  }

  lemma {:induction false} CustomerIsApart(buyer: Buyer, m: string)
    requires PastParties(m) && m[4] != 'A'
    ensures NodeApart(CustomerGroup(buyer), m)
  {
    hide CustomerParty, NodeApart, Apart;
    GroupNames();
    CustomerApart(buyer, m);
    AggregateApart(ACCOUNTING_CUSTOMER_PARTY, 'A', m);
    GroupApart(ACCOUNTING_CUSTOMER_PARTY, [CustomerParty(buyer)], m);
  }

  lemma {:induction false} TotalsShape(inp: Input)
    requires ValidInput(inp)
    ensures Totals(inp).Group? && Totals(inp).name == TAX_TOTAL
    ensures MonetaryTotal(inp).Group? && MonetaryTotal(inp).name == LEGAL_MONETARY_TOTAL
  {
  }

  lemma {:induction false} BodyIsListed(inp: Input)
    requires ValidInput(inp)
    ensures Body(inp) == Listed(Header(inp), CounterReference(inp), HashReference(inp), SupplierGroup(inp.seller),
                                CustomerGroup(inp.buyer), Totals(inp), MonetaryTotal(inp), LineNodes(inp, inp.lines))
  {
    hide Header, CounterReference, HashReference, SupplierParty, CustomerParty, Totals, MonetaryTotal, LineNodes;
  }

  lemma {:induction false} PastNames(m: string)
    requires m == ACCOUNTING_SUPPLIER_PARTY || m == ACCOUNTING_CUSTOMER_PARTY || m == TAX_TOTAL
             || m == LEGAL_MONETARY_TOTAL
    ensures PastParties(m) && m[0] == 'c' && m[1] == 'a' && (m[4] != 'A' || m[5] == 'c')
    ensures m == TAX_TOTAL || m == LEGAL_MONETARY_TOTAL ==> m[4] != 'A'
    ensures m == LEGAL_MONETARY_TOTAL ==> m[4] != 'T'
  {
    GroupNames();
  }

  /** The four groups of the document. */
  lemma {:induction false} BodyHasGroups(inp: Input, body: seq<Token>)
    requires ValidInput(inp) && body == RenderAll(Body(inp), 2)
    ensures Contains(body, Piece(SupplierGroup(inp.seller), 2)) && Contains(body, Piece(CustomerGroup(inp.buyer), 2))
    ensures Contains(body, Piece(Totals(inp), 2)) && Contains(body, Piece(MonetaryTotal(inp), 2))
  {
    hide Header, CounterReference, HashReference, SupplierParty, CustomerParty, Totals, MonetaryTotal, LineNodes,
         Contains, Piece, NodesApart, NodeApart, RenderAll, PastParties, Body, Listed;
    PastNames(ACCOUNTING_SUPPLIER_PARTY);
    PastNames(ACCOUNTING_CUSTOMER_PARTY);
    PastNames(TAX_TOTAL);
    PastNames(LEGAL_MONETARY_TOTAL);
    TotalsShape(inp);
    var supplier, customer := SupplierGroup(inp.seller), CustomerGroup(inp.buyer);
    forall n | n in [supplier, customer, Totals(inp), MonetaryTotal(inp)]
      ensures NodesApart(Header(inp), n.name) && NodeApart(CounterReference(inp), n.name)
      ensures NodeApart(HashReference(inp), n.name)
    {
      HeaderApart(inp, n.name);
      ReferencesApart(inp, n.name);
    }
    SupplierIsApart(inp.seller, ACCOUNTING_CUSTOMER_PARTY);
    SupplierIsApart(inp.seller, TAX_TOTAL);
    SupplierIsApart(inp.seller, LEGAL_MONETARY_TOTAL);
    CustomerIsApart(inp.buyer, TAX_TOTAL);
    CustomerIsApart(inp.buyer, LEGAL_MONETARY_TOTAL);
    TotalsApart(inp, LEGAL_MONETARY_TOTAL);
    FourGroups(Header(inp), CounterReference(inp), HashReference(inp), supplier, customer, Totals(inp),
               MonetaryTotal(inp), LineNodes(inp, inp.lines));
    BodyIsListed(inp);
  }

  // ---- inside the groups ----

  /** The attribute of an amount. */
  function InCurrency(currency: Markup): Attributes {
    Attribute("currencyID", currency)
  }

  function LeafPiece(name: Name, attributes: Attributes, text: Markup): seq<Token> {
    [Tag(name + attributes), Chars(text), Tag("/" + name)]
  }

  /** A leaf among a group's nodes, past leaves whose names are apart from it. */
  lemma {:induction false} LeafInGroup(n: Node, k: nat, indent: nat, name: Name, attributes: Attributes, text: Markup)
    requires n.Group? && k < |n.children| && n.children[k] == Leaf(name, attributes, text)
    requires name[0] == 'c' && NodesApart(n.children[..k], name + attributes) && Apart(n.name, name + attributes)
    ensures Contains(Piece(n, indent), LeafPiece(name, attributes, text))
    ensures Contains(Render(n, indent), LeafPiece(name, attributes, text))
  {
    hide Contains, NodesApart, Apart, Piece, Render;
    var part := LeafPiece(name, attributes, text);
    LeafRendered(name, attributes, text, indent + 2);
    assert (name + attributes)[0] == name[0];
    AmongNodes(n.children, k, indent + 2, part);
    ApartDiffer(n.name, "", name + attributes);
    assert n.name + "" == n.name;
    InGroup(n, indent, part);
  }

  lemma {:induction false} LeafRendered(name: Name, attributes: Attributes, text: Markup, indent: nat)
    ensures Contains(Render(Leaf(name, attributes, text), indent), LeafPiece(name, attributes, text))
  {
    LeafIsThere(name, attributes, text, indent);
  }

  lemma {:induction false} TwoNodes(a: Node, b: Node, m: string)
    requires NodeApart(a, m) && NodeApart(b, m)
    ensures NodesApart([a, b], m) && NodesApart([a], m) && NodesApart([], m)
  {
    assert [a, b][1..] == [b] && [b][1..] == [] && [a][1..] == [];
  }

  /** The name a[i] differs from b's in letter i, so amounts of the two are apart. */
  lemma {:induction false} AmountsApart(a: Name, b: Name, i: nat, currency: Markup, halalas: int)
    requires i < |a| && i < |b| && a[i] != b[i]
    ensures NodeApart(Amount(a, currency, halalas), b + InCurrency(currency))
  {
    assert (b + InCurrency(currency))[i] == b[i];
    ApartAt(a, b + InCurrency(currency), i);
    AmountApart(a, currency, halalas, b + InCurrency(currency));
  }

  function AmountPiece(name: Name, currency: Markup, halalas: int): seq<Token> {
    LeafPiece(name, InCurrency(currency), Money(halalas))
  }

  /** The k-th of a group's amounts, when the names before it differ from it. */
  lemma {:induction false} AmountInGroup(n: Node, k: nat, indent: nat, name: Name, currency: Markup, halalas: int)
    requires n.Group? && k < |n.children| && n.children[k] == Amount(name, currency, halalas)
    requires |name| > 1 && name[0] == 'c' && name[1] == 'b' && |n.name| > 1 && n.name[1] == 'a'
    requires NodesApart(n.children[..k], name + InCurrency(currency))
    ensures Contains(Piece(n, indent), AmountPiece(name, currency, halalas))
    ensures Contains(Render(n, indent), AmountPiece(name, currency, halalas))
  {
    hide Contains, NodesApart, Apart, Piece, Render, Money;
    var attributes := InCurrency(currency);
    assert (name + attributes)[1] == name[1];
    ApartAt(n.name, name + attributes, 1);
    hide Attribute;
    LeafInGroup(n, k, indent, name, attributes, Money(halalas));
  }

  /** The five amounts of the monetary total, each in its own element. */
  lemma {:induction false} MonetaryHas(inp: Input)
    requires ValidInput(inp)
    ensures var n, prepaid := Piece(MonetaryTotal(inp), 2), if inp.prepaid.Some? then inp.prepaid.value else 0;
            && Contains(n, AmountPiece(LINE_EXTENSION_AMOUNT, inp.currency, inp.totalNet))
            && Contains(n, AmountPiece(TAX_EXCLUSIVE_AMOUNT, inp.currency, inp.totalNet))
            && Contains(n, AmountPiece(TAX_INCLUSIVE_AMOUNT, inp.currency, inp.totalGross))
            && Contains(n, AmountPiece(PREPAID_AMOUNT, inp.currency, prepaid))
            && Contains(n, AmountPiece(PAYABLE_AMOUNT, inp.currency, inp.totalGross - prepaid))
  {
    hide Contains, NodesApart, NodeApart, Amount, AmountPiece, Piece, MonetaryTotal;
    TotalNames();
    GroupNames();
    MonetaryChildren(inp);
    var n, c := MonetaryTotal(inp), MonetaryTotal(inp).children;
    var prepaid := if inp.prepaid.Some? then inp.prepaid.value else 0;
    AmountsBefore(inp, c);
    AmountInGroup(n, 0, 2, LINE_EXTENSION_AMOUNT, inp.currency, inp.totalNet);
    AmountInGroup(n, 1, 2, TAX_EXCLUSIVE_AMOUNT, inp.currency, inp.totalNet);
    AmountInGroup(n, 2, 2, TAX_INCLUSIVE_AMOUNT, inp.currency, inp.totalGross);
    AmountInGroup(n, 3, 2, PREPAID_AMOUNT, inp.currency, prepaid);
    AmountInGroup(n, 4, 2, PAYABLE_AMOUNT, inp.currency, inp.totalGross - prepaid);
  }

  predicate FiveAmounts(c: seq<Node>, currency: Markup, net: int, gross: int, prepaid: int) {
    c == [Amount(LINE_EXTENSION_AMOUNT, currency, net), Amount(TAX_EXCLUSIVE_AMOUNT, currency, net),
          Amount(TAX_INCLUSIVE_AMOUNT, currency, gross), Amount(PREPAID_AMOUNT, currency, prepaid),
          Amount(PAYABLE_AMOUNT, currency, gross - prepaid)]
  }

  lemma {:induction false} MonetaryChildren(inp: Input)
    requires ValidInput(inp)
    ensures var n := MonetaryTotal(inp);
            && n.Group? && n.name == LEGAL_MONETARY_TOTAL
            && FiveAmounts(n.children, inp.currency, inp.totalNet, inp.totalGross,
                           if inp.prepaid.Some? then inp.prepaid.value else 0)
  {
    hide Amount;
  }

  lemma {:induction false} AmountsBefore(inp: Input, c: seq<Node>)
    requires Plain(inp.currency)
    requires FiveAmounts(c, inp.currency, inp.totalNet, inp.totalGross,
                         if inp.prepaid.Some? then inp.prepaid.value else 0)
    ensures NodesApart(c[..0], LINE_EXTENSION_AMOUNT + InCurrency(inp.currency))
    ensures NodesApart(c[..1], TAX_EXCLUSIVE_AMOUNT + InCurrency(inp.currency))
    ensures NodesApart(c[..2], TAX_INCLUSIVE_AMOUNT + InCurrency(inp.currency))
    ensures NodesApart(c[..3], PREPAID_AMOUNT + InCurrency(inp.currency))
    ensures NodesApart(c[..4], PAYABLE_AMOUNT + InCurrency(inp.currency))
  {
    hide NodeApart, Amount, Attribute;
    TotalNames();
    var cur, net, gross := inp.currency, inp.totalNet, inp.totalGross;
    var prepaid := if inp.prepaid.Some? then inp.prepaid.value else 0;
    AmountsApart(LINE_EXTENSION_AMOUNT, TAX_EXCLUSIVE_AMOUNT, 4, cur, net);
    AmountsApart(LINE_EXTENSION_AMOUNT, TAX_INCLUSIVE_AMOUNT, 4, cur, net);
    AmountsApart(TAX_EXCLUSIVE_AMOUNT, TAX_INCLUSIVE_AMOUNT, 7, cur, net);
    AmountsApart(LINE_EXTENSION_AMOUNT, PREPAID_AMOUNT, 4, cur, net);
    AmountsApart(TAX_EXCLUSIVE_AMOUNT, PREPAID_AMOUNT, 4, cur, net);
    AmountsApart(TAX_INCLUSIVE_AMOUNT, PREPAID_AMOUNT, 4, cur, gross);
    AmountsApart(LINE_EXTENSION_AMOUNT, PAYABLE_AMOUNT, 4, cur, net);
    AmountsApart(TAX_EXCLUSIVE_AMOUNT, PAYABLE_AMOUNT, 4, cur, net);
    AmountsApart(TAX_INCLUSIVE_AMOUNT, PAYABLE_AMOUNT, 4, cur, gross);
    AmountsApart(PREPAID_AMOUNT, PAYABLE_AMOUNT, 5, cur, prepaid);
    NodesAre(c[..0], LINE_EXTENSION_AMOUNT + InCurrency(cur));
    NodesAre(c[..1], TAX_EXCLUSIVE_AMOUNT + InCurrency(cur));
    NodesAre(c[..2], TAX_INCLUSIVE_AMOUNT + InCurrency(cur));
    NodesAre(c[..3], PREPAID_AMOUNT + InCurrency(cur));
    NodesAre(c[..4], PAYABLE_AMOUNT + InCurrency(cur));
  }

  lemma {:induction false} NoNodes(m: string)
    ensures NodesApart([], m)
  {
  }

  lemma {:induction false} TotalsChildren(inp: Input) returns (subtotal: Node)
    requires ValidInput(inp)
    ensures var n := Totals(inp);
            && n.Group? && n.name == TAX_TOTAL
            && n.children == [Amount(TAX_AMOUNT, inp.currency, inp.totalVat), subtotal]
            && subtotal.Group? && subtotal.name == TAX_SUBTOTAL && |subtotal.children| == 3
            && subtotal.children[0] == Amount(TAXABLE_AMOUNT, inp.currency, inp.totalNet)
            && subtotal.children[1] == Amount(TAX_AMOUNT, inp.currency, inp.totalVat)
            && subtotal.children[2].Group? && subtotal.children[2].name == TAX_CATEGORY
            && |subtotal.children[2].children| == 3 && subtotal.children[2].children[0].Leaf?
            && subtotal.children[2].children[0].name == ID
            && subtotal.children[2].children[1] == El(PERCENT, RateOf(inp.lines))
  {
    hide Amount;
    subtotal := Totals(inp).children[1];
  }

  /** The rate of the first line, or 15.00. */
  function RateOf(lines: seq<UblLine>): string {
    if lines == [] then "15.00" else lines[0].vatRate
  }

  /** The amount and the rate of the tax subtotal. */
  lemma {:induction false} SubtotalHolds(n: Node, currency: Markup, net: int, vat: int, rate: Markup)
    requires n.Group? && n.name == TAX_SUBTOTAL && |n.children| == 3
    requires n.children[0] == Amount(TAXABLE_AMOUNT, currency, net)
    requires n.children[1] == Amount(TAX_AMOUNT, currency, vat)
    requires n.children[2].Group? && n.children[2].name == TAX_CATEGORY && |n.children[2].children| == 3
    requires n.children[2].children[0].Leaf? && n.children[2].children[0].name == ID
    requires n.children[2].children[1] == El(PERCENT, rate)
    ensures Contains(Piece(n, 4), AmountPiece(TAX_AMOUNT, currency, vat))
    ensures Contains(Piece(n, 4), LeafPiece(PERCENT, "", rate))
  {
    hide Contains, NodeApart, NodesApart, Apart, Amount, AmountPiece, Render, RenderAll, Piece, InCurrency,
         IsName;
    TotalNames();
    var c := n.children;
    AmountsApart(TAXABLE_AMOUNT, TAX_AMOUNT, 7, currency, net);
    OneNode(c[0], TAX_AMOUNT + InCurrency(currency));
    assert c[..1] == [c[0]];
    AmountInGroup(n, 1, 4, TAX_AMOUNT, currency, vat);
    PercentApart();
    AmountApart(TAXABLE_AMOUNT, currency, net, PERCENT);
    AmountApart(TAX_AMOUNT, currency, vat, PERCENT);
    NodesAre(c[..2], PERCENT);
    CategoryHas(c[2], rate);
    LeafTag(PERCENT, "", rate);
    assert PERCENT + "" == PERCENT;
    ChildNode(n, 2, 4, LeafPiece(PERCENT, "", rate));
  }

  lemma {:induction false} PercentApart()
    ensures Apart(TAXABLE_AMOUNT, PERCENT) && Apart(TAX_AMOUNT, PERCENT) && Apart(ID, PERCENT)
    ensures Apart(TAX_CATEGORY, PERCENT) && Basic(PERCENT)
  {
    hide Apart;
    TotalNames();
    HeaderNames();
    LineNames();
    LettersApart(TAXABLE_AMOUNT, PERCENT, 4);
    LettersApart(TAX_AMOUNT, PERCENT, 4);
    LettersApart(ID, PERCENT, 4);
    LettersApart(TAX_CATEGORY, PERCENT, 1);
  }

  lemma {:induction false} CategoryHas(category: Node, rate: Markup)
    requires category.Group? && category.name == TAX_CATEGORY && |category.children| == 3
    requires category.children[0].Leaf? && category.children[0].name == ID && category.children[1] == El(PERCENT, rate)
    ensures Contains(Render(category, 6), LeafPiece(PERCENT, "", rate))
  {
    hide Contains, NodeApart, NodesApart, Apart, Render, Piece, IsName;
    PercentApart();
    NamedApart(ID, category.children[0].attributes, category.children[0].text, PERCENT);
    OneNode(category.children[0], PERCENT);
    assert category.children[..1] == [category.children[0]] && PERCENT + "" == PERCENT;
    LeafInGroup(category, 1, 6, PERCENT, "", rate);
  }

  /** The tax subtotal of the document. */
  lemma {:induction false} BodyHasSubtotal(inp: Input) returns (subtotal: Node)
    requires ValidInput(inp)
    ensures subtotal.Group? && subtotal.name == TAX_SUBTOTAL && Contains(RenderAll(Body(inp), 2), Piece(subtotal, 4))
    ensures Contains(Piece(subtotal, 4), AmountPiece(TAX_AMOUNT, inp.currency, inp.totalVat))
    ensures Plain(RateOf(inp.lines)) && Contains(Piece(subtotal, 4), LeafPiece(PERCENT, "", RateOf(inp.lines)))
  {
    hide Header, CounterReference, HashReference, SupplierGroup, CustomerGroup, Totals, MonetaryTotal, LineNodes, Body,
         Contains, NodesApart, NodeApart, Apart, Amount, Piece, Render, RenderAll, InCurrency, IsName, Basic, Aggregate;
    TotalNames();
    SubtotalNames();
    subtotal := TotalsChildren(inp);
    SubtotalHolds(subtotal, inp.currency, inp.totalNet, inp.totalVat, RateOf(inp.lines));
    PieceTag(subtotal, 4);
    GroupIsThere(subtotal, 4);
    AmountApart(TAX_AMOUNT, inp.currency, inp.totalVat, TAX_SUBTOTAL);
    OneNode(Totals(inp).children[0], TAX_SUBTOTAL);
    assert Totals(inp).children[..1] == [Totals(inp).children[0]];
    AmongNodes(Totals(inp).children, 1, 4, Piece(subtotal, 4));
    InGroup(Totals(inp), 2, Piece(subtotal, 4));
    BeforeTotals(inp);
    var before := TotalsPlace(inp);
    assert Body(inp)[..|before|] == before && Body(inp)[|before|] == Totals(inp);
    AmongNodes(Body(inp), |before|, 2, Piece(subtotal, 4));
  }

  lemma {:induction false} SubtotalNames()
    ensures PastParties(TAX_SUBTOTAL) && TAX_SUBTOTAL[0] == 'c' && TAX_SUBTOTAL[4] == 'T' && TAX_SUBTOTAL != TAX_TOTAL
    ensures Apart(TAX_AMOUNT, TAX_SUBTOTAL)
  {
    TotalNames();
    GroupNames();
    assert TAX_SUBTOTAL[7] == 'S' && TAX_SUBTOTAL[8] == 'u';
    ApartAt(TAX_AMOUNT, TAX_SUBTOTAL, 1);
  }

  /** What stands before the totals. */
  function TotalsPlace(inp: Input): seq<Node>
    requires ValidInput(inp)
  {
    Header(inp) + [CounterReference(inp)] + [HashReference(inp)] + [SupplierGroup(inp.seller)]
    + [CustomerGroup(inp.buyer)]
  }

  lemma {:induction false} BeforeTotals(inp: Input)
    requires ValidInput(inp)
    ensures NodesApart(TotalsPlace(inp), TAX_SUBTOTAL)
    ensures Body(inp) == TotalsPlace(inp) + ([Totals(inp), MonetaryTotal(inp)] + LineNodes(inp, inp.lines))
  {
    hide Header, CounterReference, HashReference, SupplierGroup, CustomerGroup, Totals, MonetaryTotal, LineNodes,
         NodesApart, NodeApart, Body, Apart;
    var m, header, counter, hash := TAX_SUBTOTAL, Header(inp), CounterReference(inp), HashReference(inp);
    SubtotalNames();
    HeaderApart(inp, m);
    ReferencesApart(inp, m);
    SupplierIsApart(inp.seller, m);
    CustomerIsApart(inp.buyer, m);
    OneMore(header, counter, m);
    OneMore(header + [counter], hash, m);
    OneMore(header + [counter] + [hash], SupplierGroup(inp.seller), m);
    OneMore(header + [counter] + [hash] + [SupplierGroup(inp.seller)], CustomerGroup(inp.buyer), m);
    BodyIsListed(inp);
  }

  /** The tax total and the taxable amount. */
  lemma {:induction false} TotalsHave(inp: Input)
    requires ValidInput(inp)
    ensures var n := Piece(Totals(inp), 2);
            && Contains(n, AmountPiece(TAX_AMOUNT, inp.currency, inp.totalVat))
            && Contains(n, AmountPiece(TAXABLE_AMOUNT, inp.currency, inp.totalNet))
  {
    hide Contains, NodeApart, NodesApart, Amount, AmountPiece, Render, RenderAll, Piece, Attribute, Money, Totals;
    TotalNames();
    GroupNames();
    var subtotal := TotalsChildren(inp);
    TotalsHold(Totals(inp), subtotal, inp.currency, inp.totalVat, inp.totalNet);
  }

  lemma {:induction false} TotalsHold(n: Node, subtotal: Node, currency: Markup, vat: int, net: int)
    requires n.Group? && n.name == TAX_TOTAL && n.children == [Amount(TAX_AMOUNT, currency, vat), subtotal]
    requires subtotal.Group? && subtotal.name == TAX_SUBTOTAL && |subtotal.children| > 0
    requires subtotal.children[0] == Amount(TAXABLE_AMOUNT, currency, net)
    ensures Contains(Piece(n, 2), AmountPiece(TAX_AMOUNT, currency, vat))
    ensures Contains(Piece(n, 2), AmountPiece(TAXABLE_AMOUNT, currency, net))
  {
    hide Contains, NodeApart, NodesApart, Amount, AmountPiece, Render, RenderAll, Piece, Attribute, Money;
    TotalNames();
    GroupNames();
    var part := AmountPiece(TAXABLE_AMOUNT, currency, net);
    var m := TAXABLE_AMOUNT + InCurrency(currency);
    NoNodes(TAX_AMOUNT + InCurrency(currency));
    NoNodes(m);
    assert n.children[..0] == [] && subtotal.children[..0] == [];
    AmountInGroup(n, 0, 2, TAX_AMOUNT, currency, vat);
    AmountInGroup(subtotal, 0, 4, TAXABLE_AMOUNT, currency, net);
    AmountsApart(TAX_AMOUNT, TAXABLE_AMOUNT, 7, currency, vat);
    OneNode(n.children[0], m);
    assert n.children[..1] == [n.children[0]];
    TagOfAmount(TAXABLE_AMOUNT, currency, net);
    AmongNodes(n.children, 1, 4, part);
    assert part[0].body[1] == 'b' && n.name[1] == 'a';
    InGroup(n, 2, part);
  }

  lemma {:induction false} TagOfAmount(name: Name, currency: Markup, halalas: int)
    ensures var part := AmountPiece(name, currency, halalas);
            && part[0] == Tag(name + InCurrency(currency)) && part[0].body[0] == name[0]
            && |part[0].body| >= |name| && forall i :: 0 <= i < |name| ==> part[0].body[i] == name[i]
  {
  }

  // ---- reading the totals ----

  lemma {:induction false} PieceTag(n: Node, indent: nat)
    requires n.Group?
    ensures Piece(n, indent) != [] && Piece(n, indent)[0] == Tag(n.name) && Plain(n.name)
  {
  }

  /** An amount of a group of the document is read after the group's tag. */
  lemma {:induction false} AmountRead(ts: seq<Token>, n: Node, indent: nat, name: Name, currency: Markup, halalas: int)
    requires n.Group? && WellFormed(ts) && Contains(ts, Piece(n, indent))
    requires Contains(Piece(n, indent), AmountPiece(name, currency, halalas))
    requires |name| > 1 && |n.name| > 1 && n.name[1] != name[1]
    ensures TextAfter(Print(ts), n.name, name + InCurrency(currency)) == Money(halalas)
  {
    hide WellFormed, Contains, Piece, TextAfter, Money;
    PieceTag(n, indent);
    TagOfAmount(name, currency, halalas);
    TextInPart(ts, Piece(n, indent), name + InCurrency(currency), Money(halalas), "/" + name);
  }

  lemma {:induction false} DocumentHas(inp: Input, part: seq<Token>)
    requires ValidInput(inp) && Contains(RenderAll(Body(inp), 2), part)
    requires part[0].body != "" && part[0].body[0] == 'c'
    ensures Contains(Tokens(inp), part) && WellFormed(Tokens(inp))
  {
    hide Contains, RenderAll, Body, Declaration, Namespaces, Assemble;
    TokensFacts(inp);
    DeclarationStarts();
    InAssembled(Declaration(), Namespaces(), RenderAll(Body(inp), 2), inp.lines == [], part);
  }

  /** After the tag of a group, the first element of the name states the amount in the currency. */
  predicate SaysAmount(xml: string, group: string, name: string, currency: Markup, halalas: int) {
    TextAfter(xml, group, name + InCurrency(currency)) == Money(halalas)
  }

  /** Tax, taxable amount, their subtotal, the lines' total, net, gross, what is prepaid and what is left to
      pay. */
  predicate SaysTotals(xml: string, currency: Markup, vat: int, net: int, gross: int, prepaid: int) {
    && SaysAmount(xml, "cac:TaxTotal", "cbc:TaxAmount", currency, vat)
    && SaysAmount(xml, "cac:TaxTotal", "cbc:TaxableAmount", currency, net)
    && SaysAmount(xml, "cac:TaxSubtotal", "cbc:TaxAmount", currency, vat)
    && SaysAmount(xml, "cac:LegalMonetaryTotal", "cbc:LineExtensionAmount", currency, net)
    && SaysAmount(xml, "cac:LegalMonetaryTotal", "cbc:TaxExclusiveAmount", currency, net)
    && SaysAmount(xml, "cac:LegalMonetaryTotal", "cbc:TaxInclusiveAmount", currency, gross)
    && SaysAmount(xml, "cac:LegalMonetaryTotal", "cbc:PrepaidAmount", currency, prepaid)
    && SaysAmount(xml, "cac:LegalMonetaryTotal", "cbc:PayableAmount", currency, gross - prepaid)
  }

  lemma {:induction false} SubtotalRead(inp: Input)
    requires ValidInput(inp)
    ensures TextAfter(BuildUblInvoice(inp), TAX_SUBTOTAL, TAX_AMOUNT + InCurrency(inp.currency)) == Money(inp.totalVat)
    ensures TextAfter(BuildUblInvoice(inp), TAX_SUBTOTAL, PERCENT) == RateOf(inp.lines)
  {
    hide WellFormed, Contains, Piece, TextAfter, Money, Tokens, Body, RenderAll, InCurrency, AmountPiece, LeafPiece,
         IsName;
    TotalNames();
    LineNames();
    var ts := Tokens(inp);
    var subtotal := BodyHasSubtotal(inp);
    PieceTag(subtotal, 4);
    DocumentHas(inp, Piece(subtotal, 4));
    AmountRead(ts, subtotal, 4, TAX_AMOUNT, inp.currency, inp.totalVat);
    ElementRead(ts, subtotal, 4, PERCENT, RateOf(inp.lines));
  }

  /** The document states the invoice's totals, each where a reader looks for it, as the template was given
      them. */
  lemma {:induction false} InvoiceSaysTotals(inp: Input)
    requires ValidInput(inp)
    ensures SaysTotals(BuildUblInvoice(inp), inp.currency, inp.totalVat, inp.totalNet, inp.totalGross,
                       if inp.prepaid.Some? then inp.prepaid.value else 0)
    ensures TextAfter(BuildUblInvoice(inp), "cac:TaxSubtotal", "cbc:Percent") == RateOf(inp.lines)
  {
    hide WellFormed, Contains, Piece, TextAfter, Money, Tokens, Body, RenderAll, Totals, MonetaryTotal, Attribute,
         AmountPiece, SupplierGroup, CustomerGroup;
    var ts, totals, monetary := Tokens(inp), Totals(inp), MonetaryTotal(inp);
    var prepaid := if inp.prepaid.Some? then inp.prepaid.value else 0;
    GroupNames();
    TotalNames();
    TotalsShape(inp);
    BodyHasGroups(inp, RenderAll(Body(inp), 2));
    PieceTag(totals, 2);
    PieceTag(monetary, 2);
    DocumentHas(inp, Piece(totals, 2));
    DocumentHas(inp, Piece(monetary, 2));
    TotalsHave(inp);
    MonetaryHas(inp);
    SubtotalRead(inp);
    AmountRead(ts, totals, 2, TAX_AMOUNT, inp.currency, inp.totalVat);
    AmountRead(ts, totals, 2, TAXABLE_AMOUNT, inp.currency, inp.totalNet);
    AmountRead(ts, monetary, 2, LINE_EXTENSION_AMOUNT, inp.currency, inp.totalNet);
    AmountRead(ts, monetary, 2, TAX_EXCLUSIVE_AMOUNT, inp.currency, inp.totalNet);
    AmountRead(ts, monetary, 2, TAX_INCLUSIVE_AMOUNT, inp.currency, inp.totalGross);
    AmountRead(ts, monetary, 2, PREPAID_AMOUNT, inp.currency, prepaid);
    AmountRead(ts, monetary, 2, PAYABLE_AMOUNT, inp.currency, inp.totalGross - prepaid);
  }

  /** An amount in the document reads as sign, whole riyals, a point and two digits of halalas. */
  lemma {:induction false} MoneySays(halalas: int)
    ensures var text := Money(halalas);
            var digits := if halalas < 0 then text[1..] else text;
            && (halalas < 0 ==> text[0] == '-')
            && |digits| >= 4 && digits[|digits| - 3] == '.'
            && AllDigits(digits[..|digits| - 3]) && AllDigits(digits[|digits| - 2..])
            && Value(digits[..|digits| - 3]) * 100 + Value(digits[|digits| - 2..]) == Abs(halalas)
  {
    hide Number, Padded, Digits, Value, AllDigits, Money;
    var whole, rest := Abs(halalas) / 100, Abs(halalas) % 100;
    NumberSays(whole);
    ValueOfPadded(rest, 2);
    TwoDigits(rest);
    Pointed(Number(whole), Padded(rest, 2), Number(whole) + "." + Padded(rest, 2));
    MoneyIs(halalas, Number(whole) + "." + Padded(rest, 2));
    assert Abs(halalas) == whole * 100 + rest;
  }

  lemma {:induction false} MoneyIs(halalas: int, digits: string)
    requires digits == Number(Abs(halalas) / 100) + "." + Padded(Abs(halalas) % 100, 2)
    ensures if halalas < 0 then Money(halalas) != "" && Money(halalas)[0] == '-' && Money(halalas)[1..] == digits
            else Money(halalas) == digits
  {
    hide Number, Padded;
    var sign := if halalas < 0 then "-" else "";
    assert Money(halalas) == sign + digits;
  }

  lemma {:induction false} NumberSays(n: nat)
    ensures Number(n) != "" && AllDigits(Number(n)) && Value(Number(n)) == n
  {
    ValueOfDigits(n);
  }

  lemma {:induction false} Pointed(w: string, r: string, text: string)
    requires text == w + "." + r && |r| == 2
    ensures text[..|text| - 3] == w && text[|text| - 3] == '.' && text[|text| - 2..] == r
  {
  }

  lemma {:induction false} TwoDigits(n: nat)
    requires n < 100
    ensures |Padded(n, 2)| == 2
  {
    PaddedLength(n, 2);
    assert TenTo(2) == 10 * (10 * TenTo(0)) == 100;
  }

  // ---- reading the header ----

  lemma {:induction false} LeafAmong(ns: seq<Node>, k: nat, indent: nat, name: Name, attributes: Attributes,
                                     text: Markup)
    requires k < |ns| && ns[k] == Leaf(name, attributes, text) && name[0] == 'c'
    requires NodesApart(ns[..k], name + attributes)
    ensures Contains(RenderAll(ns, indent), LeafPiece(name, attributes, text))
  {
    hide Contains, NodesApart, Render, RenderAll;
    LeafRendered(name, attributes, text, indent);
    assert (name + attributes)[0] == name[0];
    AmongNodes(ns, k, indent, LeafPiece(name, attributes, text));
  }

  /** The k-th header element, when the names before it are apart from its tag, is in the body. */
  lemma {:induction false} HeaderLeaf(inp: Input, k: nat, name: Name, attributes: Attributes, text: Markup)
    requires ValidInput(inp) && k < 8 && |Header(inp)| == 8 && Header(inp)[k] == Leaf(name, attributes, text)
    requires name[0] == 'c'
    requires forall j :: 0 <= j < k ==> Header(inp)[j].Leaf? && Apart(Header(inp)[j].name, name + attributes)
    ensures Contains(RenderAll(Body(inp), 2), LeafPiece(name, attributes, text))
  {
    hide Contains, Render, RenderAll, Header, CounterReference, HashReference, Remainder, Apart;
    var header, body := Header(inp), Body(inp);
    assert body[..k] == header[..k] && body[k] == header[k];
    forall j | 0 <= j < k
      ensures NodeApart(header[..k][j], name + attributes)
    {
      assert header[..k][j] == header[j];
    }
    NodesAre(header[..k], name + attributes);
    LeafAmong(body, k, 2, name, attributes, text);
  }

  /** Standard invoices are 0100000, simplified ones 0200000. */
  function TypeTag(t: InvoiceType): string {
    "cbc:InvoiceTypeCode" + (" " + "name" + "=\"" + (if t == Standard then "0100000" else "0200000") + "\"")
  }

  lemma {:induction false} TypeTagIs(t: InvoiceType)
    ensures INVOICE_TYPE_CODE + Attribute("name", TypeCodeName(t)) == TypeTag(t)
  {
  }

  predicate SaysNumber(xml: string, number: string, uuid: string) {
    TextOf(xml, "cbc:ID", 0) == Escaped(number) && TextOf(xml, "cbc:UUID", 0) == uuid
  }

  predicate SaysDate(xml: string, issuedAt: string) {
    |issuedAt| >= 19 && TextOf(xml, "cbc:IssueDate", 0) == issuedAt[..10]
    && TextOf(xml, "cbc:IssueTime", 0) == issuedAt[11..19]
  }

  predicate SaysType(xml: string, t: InvoiceType, currency: string) {
    TextOf(xml, TypeTag(t), 0) == "388" && TextOf(xml, "cbc:DocumentCurrencyCode", 0) == currency
  }

  lemma {:induction false} HeaderParts(inp: Input)
    requires ValidInput(inp)
    ensures |Header(inp)| == 8 && forall j :: 0 <= j < 8 ==> Header(inp)[j].Leaf?
    ensures Header(inp)[0].name == PROFILE_ID
    ensures Header(inp)[1] == Leaf(ID, "", Escaped(inp.invoiceNumber)) && Header(inp)[2] == Leaf(UUID, "", inp.uuid)
    ensures Header(inp)[3] == Leaf(ISSUE_DATE, "", inp.issuedAt[..10])
    ensures Header(inp)[4] == Leaf(ISSUE_TIME, "", inp.issuedAt[11..19])
    ensures Header(inp)[5] == Leaf(INVOICE_TYPE_CODE, Attribute("name", TypeCodeName(inp.invoiceType)), "388")
    ensures Header(inp)[6] == Leaf(DOCUMENT_CURRENCY_CODE, "", inp.currency)
  {
    hide Escaped, Attribute;
  }

  lemma {:induction false} LeafRead(inp: Input, name: Name, attributes: Attributes, text: Markup)
    requires ValidInput(inp) && name[0] == 'c'
    requires Contains(RenderAll(Body(inp), 2), LeafPiece(name, attributes, text))
    ensures TextOf(BuildUblInvoice(inp), name + attributes, 0) == text
  {
    hide Contains, RenderAll, Body, TextOf, Tokens, WellFormed;
    assert (name + attributes)[0] == name[0];
    DocumentHas(inp, LeafPiece(name, attributes, text));
    EmbeddedText(Tokens(inp), name + attributes, text, "/" + name);
  }

  /** Apart in letter i, whatever attributes follow. */
  lemma {:induction false} LetterApart(a: string, b: string, attributes: string, i: nat)
    requires i < |a| && i < |b| && a[i] != b[i]
    ensures Apart(a, b + attributes)
  {
    assert (b + attributes)[i] == b[i];
    ApartAt(a, b + attributes, i);
  }

  lemma {:induction false} HeaderNamesApart(attributes: string)
    ensures Apart(PROFILE_ID, ID + "") && Apart(PROFILE_ID, UUID + "") && Apart(ID, UUID + "")
    ensures Apart(PROFILE_ID, ISSUE_DATE + "") && Apart(ID, ISSUE_DATE + "") && Apart(UUID, ISSUE_DATE + "")
    ensures Apart(PROFILE_ID, ISSUE_TIME + "") && Apart(ID, ISSUE_TIME + "") && Apart(UUID, ISSUE_TIME + "")
    ensures Apart(ISSUE_DATE, ISSUE_TIME + "")
    ensures Apart(PROFILE_ID, INVOICE_TYPE_CODE + attributes) && Apart(ID, INVOICE_TYPE_CODE + attributes)
    ensures Apart(UUID, INVOICE_TYPE_CODE + attributes) && Apart(ISSUE_DATE, INVOICE_TYPE_CODE + attributes)
    ensures Apart(ISSUE_TIME, INVOICE_TYPE_CODE + attributes)
  {
    hide Apart;
    HeaderNames();
    LetterApart(PROFILE_ID, ID, "", 4);
    LetterApart(PROFILE_ID, UUID, "", 4);
    LetterApart(ID, UUID, "", 4);
    LetterApart(PROFILE_ID, ISSUE_DATE, "", 4);
    LetterApart(ID, ISSUE_DATE, "", 5);
    LetterApart(UUID, ISSUE_DATE, "", 4);
    LetterApart(PROFILE_ID, ISSUE_TIME, "", 4);
    LetterApart(ID, ISSUE_TIME, "", 5);
    LetterApart(UUID, ISSUE_TIME, "", 4);
    LetterApart(ISSUE_DATE, ISSUE_TIME, "", 9);
    LetterApart(PROFILE_ID, INVOICE_TYPE_CODE, attributes, 4);
    LetterApart(ID, INVOICE_TYPE_CODE, attributes, 5);
    LetterApart(UUID, INVOICE_TYPE_CODE, attributes, 4);
    LetterApart(ISSUE_DATE, INVOICE_TYPE_CODE, attributes, 5);
    LetterApart(ISSUE_TIME, INVOICE_TYPE_CODE, attributes, 5);
  }

  lemma {:induction false} CurrencyApart()
    ensures Apart(PROFILE_ID, DOCUMENT_CURRENCY_CODE + "") && Apart(ID, DOCUMENT_CURRENCY_CODE + "")
    ensures Apart(UUID, DOCUMENT_CURRENCY_CODE + "") && Apart(ISSUE_DATE, DOCUMENT_CURRENCY_CODE + "")
    ensures Apart(ISSUE_TIME, DOCUMENT_CURRENCY_CODE + "") && Apart(INVOICE_TYPE_CODE, DOCUMENT_CURRENCY_CODE + "")
  {
    hide Apart;
    HeaderNames();
    LetterApart(PROFILE_ID, DOCUMENT_CURRENCY_CODE, "", 4);
    LetterApart(ID, DOCUMENT_CURRENCY_CODE, "", 4);
    LetterApart(UUID, DOCUMENT_CURRENCY_CODE, "", 4);
    LetterApart(ISSUE_DATE, DOCUMENT_CURRENCY_CODE, "", 4);
    LetterApart(ISSUE_TIME, DOCUMENT_CURRENCY_CODE, "", 4);
    LetterApart(INVOICE_TYPE_CODE, DOCUMENT_CURRENCY_CODE, "", 4);
  }

  lemma {:induction false} InvoiceSaysNumber(inp: Input)
    requires ValidInput(inp)
    ensures SaysNumber(BuildUblInvoice(inp), inp.invoiceNumber, inp.uuid)
  {
    hide Contains, Tokens, Body, RenderAll, Header, TextOf, Apart, LeafPiece, Attribute, Escaped, BuildUblInvoice,
         ValidInput;
    HeaderNames();
    HeaderParts(inp);
    HeaderNamesApart("");
    HeaderLeaf(inp, 1, ID, "", Escaped(inp.invoiceNumber));
    HeaderLeaf(inp, 2, UUID, "", Header(inp)[2].text);
    LeafRead(inp, ID, "", Escaped(inp.invoiceNumber));
    LeafRead(inp, UUID, "", Header(inp)[2].text);
    assert ID + "" == ID && UUID + "" == UUID;
  }

  lemma {:induction false} InvoiceSaysDate(inp: Input)
    requires ValidInput(inp)
    ensures SaysDate(BuildUblInvoice(inp), inp.issuedAt)
  {
    hide Contains, Tokens, Body, RenderAll, Header, TextOf, Apart, LeafPiece, Attribute, Escaped, BuildUblInvoice;
    HeaderNames();
    HeaderParts(inp);
    HeaderNamesApart("");
    HeaderLeaf(inp, 3, ISSUE_DATE, "", inp.issuedAt[..10]);
    HeaderLeaf(inp, 4, ISSUE_TIME, "", inp.issuedAt[11..19]);
    LeafRead(inp, ISSUE_DATE, "", inp.issuedAt[..10]);
    LeafRead(inp, ISSUE_TIME, "", inp.issuedAt[11..19]);
    assert ISSUE_DATE + "" == ISSUE_DATE && ISSUE_TIME + "" == ISSUE_TIME;
  }

  lemma {:induction false} InvoiceSaysType(inp: Input)
    requires ValidInput(inp)
    ensures SaysType(BuildUblInvoice(inp), inp.invoiceType, inp.currency)
  {
    hide Contains, Tokens, Body, RenderAll, Header, TextOf, Apart, LeafPiece, Attribute, BuildUblInvoice, TypeTag,
         TypeCodeName, ValidInput;
    HeaderNames();
    HeaderParts(inp);
    var code, currency := Header(inp)[5], Header(inp)[6];
    TypeTagIs(inp.invoiceType);
    HeaderNamesApart(code.attributes);
    CurrencyApart();
    HeaderLeaf(inp, 5, INVOICE_TYPE_CODE, code.attributes, code.text);
    HeaderLeaf(inp, 6, DOCUMENT_CURRENCY_CODE, "", currency.text);
    LeafRead(inp, INVOICE_TYPE_CODE, code.attributes, code.text);
    LeafRead(inp, DOCUMENT_CURRENCY_CODE, "", currency.text);
    assert DOCUMENT_CURRENCY_CODE + "" == DOCUMENT_CURRENCY_CODE;
  }

  // ---- reading the parties ----

  /** A group whose only child has the piece, one level up. */
  lemma {:induction false} OnlyNode(n: Node, child: Node, indent: nat, part: seq<Token>)
    requires n.Group? && n.children == [child] && part != [] && part[0].Tag? && |part[0].body| > 1
    requires part[0].body[0] == 'c' && part[0].body[1] == 'b' && |n.name| > 1 && n.name[1] == 'a'
    requires Contains(Render(child, indent + 2), part)
    ensures Contains(Render(n, indent), part) && Contains(Piece(n, indent), part)
  {
    hide Contains, NodesApart, Render, RenderAll, Piece;
    NoNodes(part[0].body);
    assert n.children[..0] == [];
    AmongNodes(n.children, 0, indent + 2, part);
    InGroup(n, indent, part);
  }

  /** A group's k-th child has the piece and nothing before it has. */
  lemma {:induction false} ChildNode(n: Node, k: nat, indent: nat, part: seq<Token>)
    requires n.Group? && k < |n.children| && part != [] && part[0].Tag? && |part[0].body| > 1
    requires part[0].body[0] == 'c' && part[0].body[1] == 'b' && |n.name| > 1 && n.name[1] == 'a'
    requires NodesApart(n.children[..k], part[0].body) && Contains(Render(n.children[k], indent + 2), part)
    ensures Contains(Render(n, indent), part) && Contains(Piece(n, indent), part)
  {
    hide Contains, NodesApart, Render, RenderAll, Piece;
    AmongNodes(n.children, k, indent + 2, part);
    InGroup(n, indent, part);
  }

  lemma {:induction false} PlainLeaf(name: Name, text: Markup, indent: nat)
    ensures Contains(Render(El(name, text), indent), LeafPiece(name, "", text))
    ensures LeafPiece(name, "", text)[0] == Tag(name)
  {
    assert name + "" == name;
    LeafRendered(name, "", text, indent);
  }

  lemma {:induction false} EntityHas(name: Markup, indent: nat)
    ensures Contains(Render(Group(PARTY_LEGAL_ENTITY, [El(REGISTRATION_NAME, name)]), indent),
                     LeafPiece(REGISTRATION_NAME, "", name))
  {
    hide Contains, Render, Piece, LeafPiece, El;
    PartyNames();
    PlainLeaf(REGISTRATION_NAME, name, indent + 2);
    OnlyNode(Group(PARTY_LEGAL_ENTITY, [El(REGISTRATION_NAME, name)]), El(REGISTRATION_NAME, name), indent,
             LeafPiece(REGISTRATION_NAME, "", name));
  }

  lemma {:induction false} SchemeHas(number: Markup, indent: nat)
    ensures Contains(Render(Group(PARTY_TAX_SCHEME, [El(COMPANY_ID, number), VAT_SCHEME]), indent),
                     LeafPiece(COMPANY_ID, "", number))
  {
    hide Contains, Render, Piece, LeafPiece, El, NodesApart;
    PartyNames();
    PlainLeaf(COMPANY_ID, number, indent + 2);
    NoNodes(COMPANY_ID);
    var n := Group(PARTY_TAX_SCHEME, [El(COMPANY_ID, number), VAT_SCHEME]);
    assert n.children[..0] == [];
    ChildNode(n, 0, indent, LeafPiece(COMPANY_ID, "", number));
  }

  /** What precedes the tax scheme and the legal entity of a seller has neither's text in it. */
  lemma {:induction false} BeforeScheme(attributes: Attributes, id: Markup, street: Markup,
                                         code: Markup, m: string)
    requires m == COMPANY_ID || m == REGISTRATION_NAME
    ensures NodeApart(Group(PARTY_IDENTIFICATION, [Leaf(ID, attributes, id)]), m)
    ensures NodeApart(Group(POSTAL_ADDRESS, [El(STREET_NAME, street), Wrapped(COUNTRY, IDENTIFICATION_CODE, code)]), m)
  {
    hide Apart, NodeApart, El, IsName, Plain, Basic, Aggregate;
    BeforeNames(m);
    LettersApart(PARTY_IDENTIFICATION, m, 1);
    LettersApart(ID, m, 4);
    NamedApart(ID, attributes, id, m);
    GroupApart(PARTY_IDENTIFICATION, [Leaf(ID, attributes, id)], m);
    LettersApart(POSTAL_ADDRESS, m, 1);
    LettersApart(COUNTRY, m, 1);
    LettersApart(STREET_NAME, m, 4);
    LettersApart(IDENTIFICATION_CODE, m, 4);
    ElApart(STREET_NAME, street, m);
    WrappedApart(COUNTRY, IDENTIFICATION_CODE, code, m);
    GroupApart(POSTAL_ADDRESS, [El(STREET_NAME, street), Wrapped(COUNTRY, IDENTIFICATION_CODE, code)], m);
  }

  lemma {:induction false} BeforeNames(m: string)
    requires m == COMPANY_ID || m == REGISTRATION_NAME
    ensures |m| > 4 && m[1] == 'b' && |PARTY_IDENTIFICATION| > 1 && PARTY_IDENTIFICATION[1] == 'a'
    ensures |POSTAL_ADDRESS| > 1 && POSTAL_ADDRESS[1] == 'a' && |COUNTRY| > 1 && COUNTRY[1] == 'a'
    ensures |ID| > 4 && ID[4] != m[4] && |STREET_NAME| > 4 && STREET_NAME[4] != m[4]
    ensures |IDENTIFICATION_CODE| > 4 && IDENTIFICATION_CODE[4] != m[4]
  {
    PartyNames();
    HeaderNames();
  }

  lemma {:induction false} NamedApart(name: Name, attributes: Attributes, text: Markup, m: string)
    requires Apart(name, m)
    ensures NodeApart(Leaf(name, attributes, text), m)
  {
  }

  lemma {:induction false} LettersApart(a: string, b: string, i: nat)
    requires i < |a| && i < |b| && a[i] != b[i]
    ensures Apart(a, b)
  {
    ApartAt(a, b, i);
  }

  lemma {:induction false} SchemeBefore(number: Markup)
    ensures NodeApart(Group(PARTY_TAX_SCHEME, [El(COMPANY_ID, number), VAT_SCHEME]), REGISTRATION_NAME)
  {
    hide Apart;
    PartyNames();
    HeaderNames();
    LettersApart(PARTY_TAX_SCHEME, REGISTRATION_NAME, 1);
    LettersApart(TAX_SCHEME, REGISTRATION_NAME, 1);
    LettersApart(ID, REGISTRATION_NAME, 4);
    LettersApart(COMPANY_ID, REGISTRATION_NAME, 4);
    GroupApart(PARTY_TAX_SCHEME, [El(COMPANY_ID, number), VAT_SCHEME], REGISTRATION_NAME);
  }

  /** A party of four parts: the seller's. */
  lemma {:induction false} FourParts(id: Node, address: Node, number: Markup, name: Markup)
    requires NodeApart(id, COMPANY_ID) && NodeApart(address, COMPANY_ID)
    requires NodeApart(id, REGISTRATION_NAME) && NodeApart(address, REGISTRATION_NAME)
    ensures var n := Group(PARTY, [id, address, Group(PARTY_TAX_SCHEME, [El(COMPANY_ID, number), VAT_SCHEME]),
                                   Group(PARTY_LEGAL_ENTITY, [El(REGISTRATION_NAME, name)])]);
            && Contains(Render(n, 4), LeafPiece(COMPANY_ID, "", number))
            && Contains(Render(n, 4), LeafPiece(REGISTRATION_NAME, "", name))
  {
    hide Contains, Render, Piece, LeafPiece, El, NodesApart, NodeApart;
    PartyNames();
    var scheme := Group(PARTY_TAX_SCHEME, [El(COMPANY_ID, number), VAT_SCHEME]);
    var entity := Group(PARTY_LEGAL_ENTITY, [El(REGISTRATION_NAME, name)]);
    var n := Group(PARTY, [id, address, scheme, entity]);
    SchemeHas(number, 6);
    EntityHas(name, 6);
    SchemeBefore(number);
    PlainLeaf(COMPANY_ID, number, 0);
    PlainLeaf(REGISTRATION_NAME, name, 0);
    NodesAre([id, address], COMPANY_ID);
    NodesAre([id, address, scheme], REGISTRATION_NAME);
    assert n.children[..2] == [id, address] && n.children[..3] == [id, address, scheme];
    ChildNode(n, 2, 4, LeafPiece(COMPANY_ID, "", number));
    ChildNode(n, 3, 4, LeafPiece(REGISTRATION_NAME, "", name));
  }

  /** The scheme of a seller's identification. */
  function CrnScheme(): Attributes {
    Attribute("schemeID", "CRN")
  }

  lemma {:induction false} SupplierShape(seller: Seller)
      returns (attributes: Attributes, id: Markup, street: Markup, code: Markup)
    ensures street == Escaped(StreetOf(seller)) && attributes == CrnScheme()
    ensures id == Escaped(seller.vatNumber)
    ensures SupplierParty(seller)
         == Group(PARTY, [Group(PARTY_IDENTIFICATION, [Leaf(ID, attributes, id)]),
                          Group(POSTAL_ADDRESS, [El(STREET_NAME, street), Wrapped(COUNTRY, IDENTIFICATION_CODE, code)]),
                          Group(PARTY_TAX_SCHEME, [El(COMPANY_ID, Escaped(seller.vatNumber)), VAT_SCHEME]),
                          Group(PARTY_LEGAL_ENTITY, [El(REGISTRATION_NAME, Escaped(seller.name))])])
  {
    hide Escaped, Attribute, El;
    attributes, id := CrnScheme(), Escaped(seller.vatNumber);
    street, code := Escaped(StreetOf(seller)), "SA";
  }

  lemma {:induction false} SupplierHas(seller: Seller)
    ensures Contains(Piece(SupplierGroup(seller), 2), LeafPiece(COMPANY_ID, "", Escaped(seller.vatNumber)))
    ensures Contains(Piece(SupplierGroup(seller), 2), LeafPiece(REGISTRATION_NAME, "", Escaped(seller.name)))
  {
    hide Contains, Render, Piece, LeafPiece, El, NodesApart, NodeApart, Escaped, Attribute, SupplierParty, IsName;
    PartyNames();
    GroupNames();
    var party := SupplierParty(seller);
    var attributes, id, street, code := SupplierShape(seller);
    BeforeScheme(attributes, id, street, code, COMPANY_ID);
    BeforeScheme(attributes, id, street, code, REGISTRATION_NAME);
    FourParts(party.children[0], party.children[1], Escaped(seller.vatNumber), Escaped(seller.name));
    PlainLeaf(COMPANY_ID, Escaped(seller.vatNumber), 0);
    PlainLeaf(REGISTRATION_NAME, Escaped(seller.name), 0);
    OnlyNode(SupplierGroup(seller), party, 2, LeafPiece(COMPANY_ID, "", Escaped(seller.vatNumber)));
    OnlyNode(SupplierGroup(seller), party, 2, LeafPiece(REGISTRATION_NAME, "", Escaped(seller.name)));
  }

  /** The seller's address, or that there is none. */
  function StreetOf(seller: Seller): string {
    if seller.address.Some? then seller.address.value else "N/A"
  }

  lemma {:induction false} StreetHas(seller: Seller)
    ensures Contains(Piece(SupplierGroup(seller), 2), LeafPiece(STREET_NAME, "", Escaped(StreetOf(seller))))
  {
    hide Contains, Render, Piece, LeafPiece, El, NodesApart, NodeApart, Escaped, Attribute, SupplierParty, IsName,
         Apart;
    PartyNames();
    GroupNames();
    var attributes, id, street, code := SupplierShape(seller);
    var party, part := SupplierParty(seller), LeafPiece(STREET_NAME, "", street);
    IdentificationApart(attributes, id);
    AddressHas(street, code);
    LeafTag(STREET_NAME, "", street);
    assert party.children[..1] == [party.children[0]] && STREET_NAME + "" == STREET_NAME;
    OneNode(party.children[0], STREET_NAME);
    ChildNode(party, 1, 4, part);
    OnlyNode(SupplierGroup(seller), party, 2, part);
  }

  /** The identification is the seller's VAT number under the scheme CRN. */
  lemma {:induction false} IdentificationHas(seller: Seller)
    ensures Contains(Piece(SupplierGroup(seller), 2),
                     LeafPiece(ID, CrnScheme(), Escaped(seller.vatNumber)))
  {
    hide Contains, Render, Piece, LeafPiece, El, NodesApart, NodeApart, Escaped, Attribute, SupplierParty, IsName,
         Apart, CrnScheme;
    PartyNames();
    GroupNames();
    HeaderNames();
    var attributes, id, street, code := SupplierShape(seller);
    var party, part := SupplierParty(seller), LeafPiece(ID, attributes, id);
    IdentificationHolds(attributes, id);
    LeafTag(ID, attributes, id);
    NoNodes(part[0].body);
    assert party.children[..0] == [];
    ChildNode(party, 0, 4, part);
    OnlyNode(SupplierGroup(seller), party, 2, part);
  }

  lemma {:induction false} IdentificationHolds(attributes: Attributes, id: Markup)
    ensures Contains(Render(Group(PARTY_IDENTIFICATION, [Leaf(ID, attributes, id)]), 6), LeafPiece(ID, attributes, id))
  {
    hide Contains, Render, Piece, LeafPiece, IsName;
    PartyNames();
    HeaderNames();
    LeafRendered(ID, attributes, id, 8);
    LeafTag(ID, attributes, id);
    OnlyNode(Group(PARTY_IDENTIFICATION, [Leaf(ID, attributes, id)]), Leaf(ID, attributes, id), 6,
             LeafPiece(ID, attributes, id));
  }

  lemma {:induction false} IdentificationApart(attributes: Attributes, id: Markup)
    ensures NodeApart(Group(PARTY_IDENTIFICATION, [Leaf(ID, attributes, id)]), STREET_NAME)
  {
    hide Apart, NodeApart, IsName;
    PartyNames();
    HeaderNames();
    LettersApart(PARTY_IDENTIFICATION, STREET_NAME, 1);
    LettersApart(ID, STREET_NAME, 4);
    NamedApart(ID, attributes, id, STREET_NAME);
    GroupApart(PARTY_IDENTIFICATION, [Leaf(ID, attributes, id)], STREET_NAME);
  }

  lemma {:induction false} AddressHas(street: Markup, code: Markup)
    ensures var n := Group(POSTAL_ADDRESS, [El(STREET_NAME, street), Wrapped(COUNTRY, IDENTIFICATION_CODE, code)]);
            Contains(Render(n, 6), LeafPiece(STREET_NAME, "", street))
  {
    hide Contains, Render, Piece, LeafPiece, El, NodesApart, IsName;
    PartyNames();
    var n := Group(POSTAL_ADDRESS, [El(STREET_NAME, street), Wrapped(COUNTRY, IDENTIFICATION_CODE, code)]);
    PlainLeaf(STREET_NAME, street, 8);
    LeafTag(STREET_NAME, "", street);
    NoNodes(STREET_NAME);
    assert n.children[..0] == [];
    ChildNode(n, 0, 6, LeafPiece(STREET_NAME, "", street));
  }

  predicate HasNumber(buyer: Buyer) {
    buyer.vatNumber.Some? && buyer.vatNumber.value != ""
  }

  lemma {:induction false} CustomerHas(buyer: Buyer)
    ensures Contains(Piece(CustomerGroup(buyer), 2), LeafPiece(REGISTRATION_NAME, "", Escaped(buyer.name)))
    ensures HasNumber(buyer) ==>
              Contains(Piece(CustomerGroup(buyer), 2), LeafPiece(COMPANY_ID, "", Escaped(buyer.vatNumber.value)))
  {
    hide Contains, Render, Piece, LeafPiece, El, NodesApart, NodeApart, Escaped, IsName;
    PartyNames();
    GroupNames();
    var party, name := CustomerParty(buyer), Escaped(buyer.name);
    EntityHas(name, 6);
    PlainLeaf(REGISTRATION_NAME, name, 0);
    if HasNumber(buyer) {
      var number := Escaped(buyer.vatNumber.value);
      SchemeBefore(number);
      SchemeHas(number, 6);
      PlainLeaf(COMPANY_ID, number, 0);
      NoNodes(COMPANY_ID);
      assert party.children[..0] == [];
      ChildNode(party, 0, 4, LeafPiece(COMPANY_ID, "", number));
      OnlyNode(CustomerGroup(buyer), party, 2, LeafPiece(COMPANY_ID, "", number));
    } else {
      GapApart(REGISTRATION_NAME);
    }
    OneNode(party.children[0], REGISTRATION_NAME);
    assert party.children[..1] == [party.children[0]];
    ChildNode(party, 1, 4, LeafPiece(REGISTRATION_NAME, "", name));
    OnlyNode(CustomerGroup(buyer), party, 2, LeafPiece(REGISTRATION_NAME, "", name));
  }

  /** A text element of a group of the document is read after the group's tag. */
  lemma {:induction false} ElementRead(ts: seq<Token>, n: Node, indent: nat, name: Name, text: Markup)
    requires n.Group? && WellFormed(ts) && Contains(ts, Piece(n, indent))
    requires Contains(Piece(n, indent), LeafPiece(name, "", text)) && n.name != name
    ensures TextAfter(Print(ts), n.name, name) == text
  {
    hide WellFormed, Contains, Piece, TextAfter;
    PieceTag(n, indent);
    assert name + "" == name;
    TextInPart(ts, Piece(n, indent), name, text, "/" + name);
  }

  /** Seller and buyer by name and VAT number, and the seller's address. */
  predicate SaysParties(xml: string, seller: Seller, buyer: Buyer) {
    && TextAfter(xml, "cac:AccountingSupplierParty", "cbc:ID" + CrnScheme()) == Escaped(seller.vatNumber)
    && TextAfter(xml, "cac:AccountingSupplierParty", "cbc:CompanyID") == Escaped(seller.vatNumber)
    && TextAfter(xml, "cac:AccountingSupplierParty", "cbc:RegistrationName") == Escaped(seller.name)
    && TextAfter(xml, "cac:AccountingSupplierParty", "cbc:StreetName") == Escaped(StreetOf(seller))
    && TextAfter(xml, "cac:AccountingCustomerParty", "cbc:RegistrationName") == Escaped(buyer.name)
    && (HasNumber(buyer) ==>
          TextAfter(xml, "cac:AccountingCustomerParty", "cbc:CompanyID") == Escaped(buyer.vatNumber.value))
  }

  lemma {:induction false} IdentificationRead(inp: Input)
    requires ValidInput(inp)
    ensures TextAfter(BuildUblInvoice(inp), ACCOUNTING_SUPPLIER_PARTY, ID + CrnScheme())
         == Escaped(inp.seller.vatNumber)
  {
    hide WellFormed, Contains, Piece, TextAfter, Tokens, Body, RenderAll, LeafPiece, Escaped, SupplierParty, ValidInput,
         IsName, CrnScheme;
    GroupNames();
    HeaderNames();
    var supplier, attributes := SupplierGroup(inp.seller), CrnScheme();
    BodyHasGroups(inp, RenderAll(Body(inp), 2));
    PieceTag(supplier, 2);
    DocumentHas(inp, Piece(supplier, 2));
    IdentificationHas(inp.seller);
    LeafTag(ID, attributes, Escaped(inp.seller.vatNumber));
    PieceText(Tokens(inp), supplier, ID, attributes, Escaped(inp.seller.vatNumber));
  }

  lemma {:induction false} PieceText(ts: seq<Token>, n: Node, name: Name, attributes: Attributes, text: Markup)
    requires n.Group? && WellFormed(ts) && Contains(ts, Piece(n, 2)) && |n.name| > 1 && n.name[1] == 'a' && Basic(name)
    requires Contains(Piece(n, 2), LeafPiece(name, attributes, text))
    ensures TextAfter(Print(ts), n.name, name + attributes) == text
  {
    hide WellFormed, Contains, Piece, TextAfter;
    PieceTag(n, 2);
    assert (name + attributes)[1] == name[1];
    TextInPart(ts, Piece(n, 2), name + attributes, text, "/" + name);
  }

  lemma {:induction false} InvoiceSaysParties(inp: Input)
    requires ValidInput(inp)
    ensures SaysParties(BuildUblInvoice(inp), inp.seller, inp.buyer)
  {
    hide WellFormed, Contains, Piece, TextAfter, Tokens, Body, RenderAll, Totals, MonetaryTotal, LeafPiece, Escaped,
         SupplierParty, CustomerParty, ValidInput;
    var ts, supplier, customer := Tokens(inp), SupplierGroup(inp.seller), CustomerGroup(inp.buyer);
    GroupNames();
    PartyNames();
    BodyHasGroups(inp, RenderAll(Body(inp), 2));
    PieceTag(supplier, 2);
    PieceTag(customer, 2);
    DocumentHas(inp, Piece(supplier, 2));
    DocumentHas(inp, Piece(customer, 2));
    SupplierHas(inp.seller);
    StreetHas(inp.seller);
    IdentificationRead(inp);
    CustomerHas(inp.buyer);
    ElementRead(ts, supplier, 2, COMPANY_ID, Escaped(inp.seller.vatNumber));
    ElementRead(ts, supplier, 2, REGISTRATION_NAME, Escaped(inp.seller.name));
    ElementRead(ts, supplier, 2, STREET_NAME, Escaped(StreetOf(inp.seller)));
    ElementRead(ts, customer, 2, REGISTRATION_NAME, Escaped(inp.buyer.name));
    if HasNumber(inp.buyer) {
      ElementRead(ts, customer, 2, COMPANY_ID, Escaped(inp.buyer.vatNumber.value));
    }
  }

  // ---- reading the lines ----

  /** The texts from each opening to the next closing marker, one after the other. */
  function Elements(s: string, open: string, close: string, from: nat): seq<string>
    requires open != ""
    decreases |s| - from
  {
    var i := Find(s, open, from);
    if i < 0 then []
    else
      var j := Find(s, close, i + |open|);
      if j < 0 then [] else [Between(s, i, j + |close|)] + Elements(s, open, close, j + |close|)
  }

  function LinesIn(xml: string): seq<string> {
    Elements(xml, "<cac:InvoiceLine>", "</cac:InvoiceLine>", 0)
  }

  /** A group that does not hold one of its own kind closes at its end. */
  lemma {:induction false} PieceClosesOnce(n: Node, indent: nat)
    requires n.Group? && NodesUnclosed(n.children, n.name)
    ensures var piece := Piece(n, indent);
            |piece| > 1 && piece[|piece| - 1] == Tag("/" + n.name) && Lacks(piece[1..|piece| - 1], "/" + n.name)
  {
    var inner := RenderAll(n.children, indent + 2);
    NodesUnclosedLack(n.children, indent + 2, n.name);
    var piece := Piece(n, indent);
    assert piece[1..|piece| - 1] == inner + [Break(indent)];
    LacksConcat(inner, [Break(indent)], "/" + n.name);
  }

  /** No element in the node is of this name. */
  predicate NodeUnclosed(n: Node, name: string)
    decreases n, 0
  {
    match n
    case Leaf(m, _, _) => m != name
    case Wrapped(outer, m, _) => outer != name && m != name
    case Gap => true
    case Group(m, children) => m != name && NodesUnclosed(children, name)
    case Reference(children) => REF_TAG != name && NodesUnclosed(children, name)
  }

  predicate NodesUnclosed(ns: seq<Node>, name: string)
    decreases ns, 1
  {
    ns == [] || (NodeUnclosed(ns[0], name) && NodesUnclosed(ns[1..], name))
  }

  lemma {:induction false} ClosingDiffers(a: string, attributes: string, name: string)
    requires a != name && a != "" && a[0] != '/'
    ensures "/" + a != "/" + name && a + attributes != "/" + name
  {
    assert ("/" + a)[1..] == a && ("/" + name)[1..] == name;
    assert (a + attributes)[0] == a[0] && ("/" + name)[0] == '/';
  }

  lemma {:induction false} NodeUnclosedLacks(n: Node, indent: nat, name: string)
    requires NodeUnclosed(n, name)
    ensures Lacks(Render(n, indent), "/" + name)
    decreases n, 0
  {
    match n
    case Leaf(m, attributes, _) => ClosingDiffers(m, attributes, name);
    case Wrapped(outer, m, _) =>
      ClosingDiffers(outer, "", name);
      ClosingDiffers(m, "", name);
      assert outer + "" == outer && m + "" == m;
    case Gap =>
    case Group(m, children) =>
      ClosingDiffers(m, "", name);
      assert m + "" == m;
      NodesUnclosedLack(children, indent + 2, name);
    case Reference(children) =>
      ClosingDiffers(REF_TAG, "", name);
      assert REF_TAG + "" == REF_TAG;
      NodesUnclosedLack(children, indent + 2, name);
  }

  lemma {:induction false} NodesUnclosedLack(ns: seq<Node>, indent: nat, name: string)
    requires NodesUnclosed(ns, name)
    ensures Lacks(RenderAll(ns, indent), "/" + name)
    decreases ns, 1
  {
    if ns != [] {
      NodeUnclosedLacks(ns[0], indent, name);
      NodesUnclosedLack(ns[1..], indent, name);
      LacksConcat(Render(ns[0], indent), RenderAll(ns[1..], indent), "/" + name);
    }
  }

  /** Printed groups of one name, in a document without others, are its elements of that name. */
  lemma {:induction false} ElementsAre(ts: seq<Token>, front: seq<Token>, ns: seq<Node>, indent: nat, back: seq<Token>,
                                       name: Name)
    requires ts == front + RenderAll(ns, indent) + back && WellFormed(ts) && name[0] != '/'
    requires forall i :: 0 <= i < |ns| ==> ns[i].Group? && ns[i].name == name && NodesUnclosed(ns[i].children, name)
    requires Lacks(back, name)
    ensures var found := Elements(Print(ts), "<" + name + ">", "<" + ("/" + name) + ">", |Print(front)|);
            && |found| == |ns| && forall i :: 0 <= i < |ns| ==> found[i] == Print(Piece(ns[i], indent))
    decreases |ns|
  {
    hide WellFormed, NodesUnclosed, Find, Print, Render, Piece, Elements, Between, Lacks;
    var open, close := "<" + name + ">", "<" + ("/" + name) + ">";
    if ns == [] {
      NoNodesRendered(indent);
      assert ts == front + back;
      NothingMore(ts, front, back, name);
      NoElement(Print(ts), open, close, |Print(front)|);
    } else {
      var n := ns[0];
      var rest, first := RenderAll(ns[1..], indent), Render(n, indent);
      FirstRendered(ns, indent);
      assert ts == (front + first) + rest + back;
      ElementsAre(ts, front + first, ns[1..], indent, back, name);
      RenderIsPiece(n, indent);
      assert ts == front + [Break(indent)] + Piece(n, indent) + (rest + back);
      FirstElement(ts, front, indent, n, rest + back);
      NextElement(Print(ts), open, close, |Print(front)|, |Print(front + first)|, Print(Piece(n, indent)));
    }
  }

  lemma {:induction false} NoNodesRendered(indent: nat)
    ensures RenderAll([], indent) == []
  {
  }

  lemma {:induction false} FirstRendered(ns: seq<Node>, indent: nat)
    requires ns != []
    ensures RenderAll(ns, indent) == Render(ns[0], indent) + RenderAll(ns[1..], indent)
  {
  }

  lemma {:induction false} NoElement(s: string, open: string, close: string, from: nat)
    requires open != "" && Find(s, open, from) == -1
    ensures Elements(s, open, close, from) == []
  {
  }

  lemma {:induction false} NextElement(s: string, open: string, close: string, from: nat, to: nat, piece: string)
    requires open != ""
    requires var i := Find(s, open, from);
             i >= 0 && var j := Find(s, close, i + |open|);
                       j >= 0 && j + |close| == to && Between(s, i, to) == piece
    ensures Elements(s, open, close, from) == [piece] + Elements(s, open, close, to)
  {
  }

  lemma {:induction false} NothingMore(ts: seq<Token>, front: seq<Token>, back: seq<Token>, name: Name)
    requires ts == front + back && WellFormed(ts) && Lacks(back, name)
    ensures Find(Print(ts), "<" + name + ">", |Print(front)|) == -1
  {
    hide WellFormed;
    FindIsFirst(Print(ts), "<" + name + ">", |Print(front)|);
    var k := Find(Print(ts), "<" + name + ">", |Print(front)|);
    if k >= 0 {
      var i := TagOccurs(ts, name, k);
      assert ts[..|front|] == front;
      if i < |front| {
        PrintGrows(ts, i, |front|);
      }
    }
  }

  /** The first element from the end of `front` on is the piece, and ends where the piece does. */
  lemma {:induction false} FirstElement(ts: seq<Token>, front: seq<Token>, indent: nat, n: Node, rest: seq<Token>)
    requires n.Group? && ts == front + [Break(indent)] + Piece(n, indent) + rest && WellFormed(ts) && n.name[0] != '/'
    requires NodesUnclosed(n.children, n.name)
    ensures var open, close, s := "<" + n.name + ">", "<" + ("/" + n.name) + ">", Print(ts);
            var i := Find(s, open, |Print(front)|);
            && i >= 0
            && var j := Find(s, close, i + |open|);
               && j >= 0 && Between(s, i, j + |close|) == Print(Piece(n, indent))
               && j + |close| == |Print(front + Render(n, indent))|
  {
    hide WellFormed, NodesUnclosed, Find, Piece;
    PieceClosesOnce(n, indent);
    PieceTag(n, indent);
    var piece := Piece(n, indent);
    var a := front + [Break(indent)];
    OpensAfter(ts, front, Break(indent), piece, rest, n.name);
    NameCloses(n.name);
    PieceCloses(ts, a, piece, rest, "/" + n.name);
    assert front + Render(n, indent) == a + piece by {
      RenderIsPiece(n, indent);
    }
    PrintConcat(a, piece);
    PrintConcat(a + piece, rest);
    CutMiddle(Print(ts), Print(a), Print(piece), Print(rest));
  }

  lemma {:induction false} NameCloses(name: Name)
    ensures Plain("/" + name)
  {
  }

  lemma {:induction false} RenderIsPiece(n: Node, indent: nat)
    requires n.Group?
    ensures Render(n, indent) == [Break(indent)] + Piece(n, indent)
  {
  }

  lemma {:induction false} OpensAfter(ts: seq<Token>, front: seq<Token>, gap: Token, piece: seq<Token>,
                                      rest: seq<Token>, name: Name)
    requires ts == front + [gap] + piece + rest && WellFormed(ts) && gap.Chars? && piece != [] && piece[0] == Tag(name)
    ensures Find(Print(ts), "<" + name + ">", |Print(front)|) == |Print(front + [gap])|
  {
    hide WellFormed;
    var n := |front|;
    assert ts[..n] == front && ts[..n + 1] == front + [gap] && ts[n] == gap && ts[n + 1] == piece[0];
    FindTag(ts, name, n, n + 1);
  }

  lemma {:induction false} LineNames()
    ensures Basic(INVOICED_QUANTITY) && Basic(ROUNDING_AMOUNT) && Basic(NAME) && Basic(PRICE_AMOUNT) && Basic(PERCENT)
    ensures |ITEM| > 4 && ITEM[1] == 'a'
    ensures |PRICE| > 4 && PRICE[1] == 'a' && |CLASSIFIED_TAX_CATEGORY| > 4 && CLASSIFIED_TAX_CATEGORY[1] == 'a'
    ensures |TAX_SCHEME| > 4 && TAX_SCHEME[1] == 'a' && |TAX_TOTAL| > 4 && TAX_TOTAL[1] == 'a'
    ensures INVOICED_QUANTITY[4] == 'I' && INVOICED_QUANTITY[5] == 'n' && ROUNDING_AMOUNT[4] == 'R' && NAME[4] == 'N'
    ensures PERCENT[4] == 'P' && PERCENT[5] == 'e' && PRICE_AMOUNT[4] == 'P' && PRICE_AMOUNT[5] == 'r'
    ensures |INVOICE_LINE| > 4 && INVOICE_LINE[1] == 'a'
  {
  }

  /** The names of a line that a tag is apart from. */
  ghost predicate LineApart(m: string, upTo: nat) {
    && (upTo >= 1 ==> Apart(ID, m)) && (upTo >= 2 ==> Apart(INVOICED_QUANTITY, m))
    && (upTo >= 3 ==> Apart(LINE_EXTENSION_AMOUNT, m))
    && (upTo >= 4 ==> Apart(TAX_TOTAL, m) && Apart(TAX_AMOUNT, m) && Apart(ROUNDING_AMOUNT, m))
    && (upTo >= 5 ==> Apart(ITEM, m) && Apart(NAME, m) && Apart(CLASSIFIED_TAX_CATEGORY, m) && Apart(PERCENT, m)
                      && Apart(TAX_SCHEME, m))
  }

  /** What is written in a line. */
  datatype LineText = LineText(id: Markup, unit: Attributes, quantity: Markup, currency: Markup, net: int, vat: int,
                               name: Markup, code: Markup, rate: Markup, scheme: Markup, price: int)

  /** A line's nodes, from the texts in them. */
  function LineParts(t: LineText): seq<Node> {
    [El(ID, t.id), Leaf(INVOICED_QUANTITY, t.unit, t.quantity), Amount(LINE_EXTENSION_AMOUNT, t.currency, t.net),
     Group(TAX_TOTAL, [Amount(TAX_AMOUNT, t.currency, t.vat), Amount(ROUNDING_AMOUNT, t.currency, t.net + t.vat)]),
     Group(ITEM, [
       El(NAME, t.name),
       Group(CLASSIFIED_TAX_CATEGORY, [El(ID, t.code), El(PERCENT, t.rate), Wrapped(TAX_SCHEME, ID, t.scheme)])]),
     Group(PRICE, [Amount(PRICE_AMOUNT, t.currency, t.price)])]
  }

  lemma {:induction false} LinePartsApart(t: LineText, m: string, upTo: nat)
    requires upTo <= 5 && LineApart(m, upTo)
    ensures NodesApart(LineParts(t)[..upTo], m)
  {
    hide Apart, NodeApart, NodesApart, El, Amount;
    var c := LineParts(t);
    if upTo >= 1 {
      ElApart(ID, t.id, m);
    }
    if upTo >= 2 {
      NamedApart(INVOICED_QUANTITY, t.unit, t.quantity, m);
    }
    if upTo >= 3 {
      AmountApart(LINE_EXTENSION_AMOUNT, t.currency, t.net, m);
    }
    if upTo >= 4 {
      AmountApart(TAX_AMOUNT, t.currency, t.vat, m);
      AmountApart(ROUNDING_AMOUNT, t.currency, t.net + t.vat, m);
      GroupApart(TAX_TOTAL, c[3].children, m);
    }
    if upTo >= 5 {
      ItemApart(t.name, t.code, t.rate, t.scheme, m);
    }
    NodesAre(c[..upTo], m);
  }

  lemma {:induction false} ItemApart(name: Markup, code: Markup, rate: Markup, scheme: Markup, m: string)
    requires Apart(ITEM, m) && Apart(NAME, m) && Apart(CLASSIFIED_TAX_CATEGORY, m) && Apart(PERCENT, m)
    requires Apart(TAX_SCHEME, m) && Apart(ID, m)
    ensures NodeApart(Group(ITEM, [El(NAME, name),
              Group(CLASSIFIED_TAX_CATEGORY, [El(ID, code), El(PERCENT, rate), Wrapped(TAX_SCHEME, ID, scheme)])]), m)
  {
    hide Apart, NodeApart, NodesApart, El;
    var category := [El(ID, code), El(PERCENT, rate), Wrapped(TAX_SCHEME, ID, scheme)];
    ElApart(ID, code, m);
    ElApart(PERCENT, rate, m);
    WrappedApart(TAX_SCHEME, ID, scheme, m);
    GroupApart(CLASSIFIED_TAX_CATEGORY, category, m);
    ElApart(NAME, name, m);
    GroupApart(ITEM, [El(NAME, name), Group(CLASSIFIED_TAX_CATEGORY, category)], m);
  }

  /** Which names come before each in a line. */
  lemma {:induction false} LineTags(unit: string, cur: string)
    ensures LineApart(ID, 0) && LineApart(INVOICED_QUANTITY + unit, 1) && LineApart(LINE_EXTENSION_AMOUNT + cur, 2)
    ensures LineApart(TAX_AMOUNT + cur, 3) && LineApart(ROUNDING_AMOUNT + cur, 3)
    ensures Apart(TAX_AMOUNT, ROUNDING_AMOUNT + cur)
  {
    hide Apart;
    LineNames();
    HeaderNames();
    TotalNames();
    LetterApart(ID, INVOICED_QUANTITY, unit, 5);
    LetterApart(ID, LINE_EXTENSION_AMOUNT, cur, 4);
    LetterApart(INVOICED_QUANTITY, LINE_EXTENSION_AMOUNT, cur, 4);
    LetterApart(ID, TAX_AMOUNT, cur, 4);
    LetterApart(INVOICED_QUANTITY, TAX_AMOUNT, cur, 4);
    LetterApart(LINE_EXTENSION_AMOUNT, TAX_AMOUNT, cur, 4);
    LetterApart(ID, ROUNDING_AMOUNT, cur, 4);
    LetterApart(INVOICED_QUANTITY, ROUNDING_AMOUNT, cur, 4);
    LetterApart(LINE_EXTENSION_AMOUNT, ROUNDING_AMOUNT, cur, 4);
    LetterApart(TAX_AMOUNT, ROUNDING_AMOUNT, cur, 4);
  }

  lemma {:induction false} ItemTags()
    ensures LineApart(NAME, 4) && LineApart(PERCENT, 4) && Apart(NAME, PERCENT) && Apart(ID, PERCENT)
  {
    hide Apart;
    LineNames();
    HeaderNames();
    TotalNames();
    LettersApart(ID, NAME, 4);
    LettersApart(INVOICED_QUANTITY, NAME, 4);
    LettersApart(LINE_EXTENSION_AMOUNT, NAME, 4);
    LettersApart(TAX_TOTAL, NAME, 1);
    LettersApart(TAX_AMOUNT, NAME, 4);
    LettersApart(ROUNDING_AMOUNT, NAME, 4);
    LettersApart(ID, PERCENT, 4);
    LettersApart(INVOICED_QUANTITY, PERCENT, 4);
    LettersApart(LINE_EXTENSION_AMOUNT, PERCENT, 4);
    LettersApart(TAX_TOTAL, PERCENT, 1);
    LettersApart(TAX_AMOUNT, PERCENT, 4);
    LettersApart(ROUNDING_AMOUNT, PERCENT, 4);
    LettersApart(NAME, PERCENT, 4);
  }

  lemma {:induction false} PriceTag(cur: string)
    ensures LineApart(PRICE_AMOUNT + cur, 5)
  {
    hide Apart;
    LineNames();
    HeaderNames();
    TotalNames();
    LetterApart(ID, PRICE_AMOUNT, cur, 4);
    LetterApart(INVOICED_QUANTITY, PRICE_AMOUNT, cur, 4);
    LetterApart(LINE_EXTENSION_AMOUNT, PRICE_AMOUNT, cur, 4);
    LetterApart(TAX_TOTAL, PRICE_AMOUNT, cur, 1);
    LetterApart(TAX_AMOUNT, PRICE_AMOUNT, cur, 4);
    LetterApart(ROUNDING_AMOUNT, PRICE_AMOUNT, cur, 4);
    LetterApart(ITEM, PRICE_AMOUNT, cur, 1);
    LetterApart(NAME, PRICE_AMOUNT, cur, 4);
    LetterApart(CLASSIFIED_TAX_CATEGORY, PRICE_AMOUNT, cur, 1);
    LetterApart(PERCENT, PRICE_AMOUNT, cur, 5);
    LetterApart(TAX_SCHEME, PRICE_AMOUNT, cur, 1);
  }

  /** A leaf of a line, k nodes in. */
  lemma {:induction false} LineLeaf(n: Node, k: nat, name: Name, attributes: Attributes, text: Markup)
    requires n.Group? && n.name == INVOICE_LINE && k < |n.children| && n.children[k] == Leaf(name, attributes, text)
    requires Basic(name) && NodesApart(n.children[..k], name + attributes)
    ensures Contains(Piece(n, 2), LeafPiece(name, attributes, text))
  {
    hide Contains, NodesApart, Apart, Piece, Render;
    LineNames();
    LetterApart(INVOICE_LINE, name, attributes, 1);
    LeafInGroup(n, k, 2, name, attributes, text);
  }

  /** A leaf in a group of a line. */
  lemma {:induction false} LineInner(n: Node, k: nat, inner: Node, i: nat, name: Name, attributes: Attributes,
                                     text: Markup)
    requires n.Group? && n.name == INVOICE_LINE && k < |n.children| && n.children[k] == inner
    requires inner.Group? && |inner.name| > 1 && inner.name[1] == 'a' && i < |inner.children|
    requires inner.children[i] == Leaf(name, attributes, text) && Basic(name)
    requires NodesApart(n.children[..k], name + attributes) && NodesApart(inner.children[..i], name + attributes)
    ensures Contains(Piece(n, 2), LeafPiece(name, attributes, text))
  {
    hide Contains, NodesApart, Apart, Piece, Render;
    LineNames();
    LetterApart(inner.name, name, attributes, 1);
    LeafInGroup(inner, i, 4, name, attributes, text);
    LeafTag(name, attributes, text);
    ChildNode(n, k, 2, LeafPiece(name, attributes, text));
  }

  lemma {:induction false} LeafTag(name: Name, attributes: Attributes, text: Markup)
    requires Basic(name)
    ensures var part := LeafPiece(name, attributes, text);
            && part != [] && part[0] == Tag(name + attributes) && |part[0].body| > 1
            && part[0].body[0] == 'c' && part[0].body[1] == 'b'
  {
  }

  /** The parts of a line, each in its own element. */
  ghost predicate LineHolds(piece: seq<Token>, t: LineText) {
    && Contains(piece, LeafPiece(ID, "", t.id)) && Contains(piece, LeafPiece(INVOICED_QUANTITY, t.unit, t.quantity))
    && Contains(piece, AmountPiece(LINE_EXTENSION_AMOUNT, t.currency, t.net))
    && Contains(piece, AmountPiece(TAX_AMOUNT, t.currency, t.vat))
    && Contains(piece, AmountPiece(ROUNDING_AMOUNT, t.currency, t.net + t.vat))
    && Contains(piece, LeafPiece(NAME, "", t.name)) && Contains(piece, LeafPiece(PERCENT, "", t.rate))
    && Contains(piece, AmountPiece(PRICE_AMOUNT, t.currency, t.price))
  }

  lemma {:induction false} LinePartsAre(t: LineText)
    ensures var c, cur := LineParts(t), InCurrency(t.currency);
            && |c| == 6 && c[0] == Leaf(ID, "", t.id) && c[1] == Leaf(INVOICED_QUANTITY, t.unit, t.quantity)
            && c[2] == Leaf(LINE_EXTENSION_AMOUNT, cur, Money(t.net))
            && c[3] == Group(TAX_TOTAL, [Leaf(TAX_AMOUNT, cur, Money(t.vat)),
                                         Leaf(ROUNDING_AMOUNT, cur, Money(t.net + t.vat))])
            && c[5] == Group(PRICE, [Leaf(PRICE_AMOUNT, cur, Money(t.price))])
  {
    hide Attribute, Money, IsName;
  }

  lemma {:induction false} LineHasFront(n: Node, t: LineText)
    requires n == Group(INVOICE_LINE, LineParts(t))
    ensures Contains(Piece(n, 2), LeafPiece(ID, "", t.id))
    ensures Contains(Piece(n, 2), LeafPiece(INVOICED_QUANTITY, t.unit, t.quantity))
    ensures Contains(Piece(n, 2), AmountPiece(LINE_EXTENSION_AMOUNT, t.currency, t.net))
  {
    hide Contains, NodesApart, NodeApart, Piece, Apart, LineApart, Attribute, Money, Basic, LineParts, IsName, Plain;
    LinePartsAre(t);
    var cur := InCurrency(t.currency);
    HeaderNames();
    LineNames();
    TotalNames();
    LineTags(t.unit, cur);
    assert ID + "" == ID;
    LinePartsApart(t, ID + "", 0);
    LinePartsApart(t, INVOICED_QUANTITY + t.unit, 1);
    LinePartsApart(t, LINE_EXTENSION_AMOUNT + cur, 2);
    LineLeaf(n, 0, ID, "", t.id);
    LineLeaf(n, 1, INVOICED_QUANTITY, t.unit, t.quantity);
    LineLeaf(n, 2, LINE_EXTENSION_AMOUNT, cur, Money(t.net));
  }

  lemma {:induction false} LineHasTax(n: Node, t: LineText)
    requires n == Group(INVOICE_LINE, LineParts(t))
    ensures Contains(Piece(n, 2), AmountPiece(TAX_AMOUNT, t.currency, t.vat))
    ensures Contains(Piece(n, 2), AmountPiece(ROUNDING_AMOUNT, t.currency, t.net + t.vat))
  {
    hide Contains, NodesApart, NodeApart, Piece, Apart, LineApart, Attribute, Money, Basic, LineParts, IsName, Plain;
    LinePartsAre(t);
    var cur := InCurrency(t.currency);
    LineNames();
    TotalNames();
    LineTags(t.unit, cur);
    LinePartsApart(t, TAX_AMOUNT + cur, 3);
    LinePartsApart(t, ROUNDING_AMOUNT + cur, 3);
    var total := n.children[3];
    NoNodes(TAX_AMOUNT + cur);
    AmountApart(TAX_AMOUNT, t.currency, t.vat, ROUNDING_AMOUNT + cur);
    OneNode(total.children[0], ROUNDING_AMOUNT + cur);
    assert total.children[..0] == [] && total.children[..1] == [total.children[0]];
    LineInner(n, 3, total, 0, TAX_AMOUNT, cur, Money(t.vat));
    LineInner(n, 3, total, 1, ROUNDING_AMOUNT, cur, Money(t.net + t.vat));
  }

  lemma {:induction false} LineHasItem(n: Node, t: LineText)
    requires n == Group(INVOICE_LINE, LineParts(t))
    ensures Contains(Piece(n, 2), LeafPiece(NAME, "", t.name)) && Contains(Piece(n, 2), LeafPiece(PERCENT, "", t.rate))
  {
    hide Contains, NodesApart, NodeApart, Piece, Apart, LineApart, Amount, Basic, Render;
    LineNames();
    ItemTags();
    assert NAME + "" == NAME && PERCENT + "" == PERCENT;
    LinePartsApart(t, NAME + "", 4);
    LinePartsApart(t, PERCENT + "", 4);
    var item := n.children[4];
    var category := item.children[1];
    NoNodes(NAME);
    assert item.children[..0] == [];
    LineInner(n, 4, item, 0, NAME, "", t.name);
    ElApart(ID, t.code, PERCENT);
    ElApart(NAME, t.name, PERCENT);
    OneNode(category.children[0], PERCENT);
    OneNode(item.children[0], PERCENT);
    assert category.children[..1] == [category.children[0]] && item.children[..1] == [item.children[0]];
    LetterApart(CLASSIFIED_TAX_CATEGORY, PERCENT, "", 1);
    LeafInGroup(category, 1, 6, PERCENT, "", t.rate);
    LeafTag(PERCENT, "", t.rate);
    ChildNode(item, 1, 4, LeafPiece(PERCENT, "", t.rate));
    ChildNode(n, 4, 2, LeafPiece(PERCENT, "", t.rate));
  }

  lemma {:induction false} LineHasPrice(n: Node, t: LineText)
    requires n == Group(INVOICE_LINE, LineParts(t))
    ensures Contains(Piece(n, 2), AmountPiece(PRICE_AMOUNT, t.currency, t.price))
  {
    hide Contains, NodesApart, NodeApart, Piece, Apart, LineApart, Attribute, Money, Basic, LineParts, IsName, Plain;
    LinePartsAre(t);
    var cur := InCurrency(t.currency);
    LineNames();
    PriceTag(cur);
    LinePartsApart(t, PRICE_AMOUNT + cur, 5);
    var total := n.children[5];
    NoNodes(PRICE_AMOUNT + cur);
    assert total.children[..0] == [];
    LineInner(n, 5, total, 0, PRICE_AMOUNT, cur, Money(t.price));
  }

  function TextsOf(inp: Input, line: UblLine): LineText
    requires Plain(inp.currency) && Plain(line.vatRate)
  {
    LineText(Number(line.id), Attribute("unitCode", Escaped(line.unitCode)), Number(line.quantity), inp.currency,
             line.lineNet, line.lineVat, Escaped(line.name), "S", line.vatRate, "VAT", line.unitPrice)
  }

  lemma {:induction false} LineNodeParts(inp: Input, line: UblLine)
    requires Plain(inp.currency) && Plain(line.vatRate)
    ensures LineNode(inp, line) == Group(INVOICE_LINE, LineParts(TextsOf(inp, line)))
  {
    hide Number, Attribute, Escaped, Amount;
  }

  /** What a reader of one line's element finds: its number, quantity with unit, net, VAT and their sum, the
      item's name, the rate and the unit price. */
  predicate SaysLine(xml: string, currency: Markup, line: UblLine) {
    var cur := InCurrency(currency);
    && TextOf(xml, "cbc:ID", 0) == Digits(line.id)
    && TextOf(xml, "cbc:InvoicedQuantity" + Attribute("unitCode", Escaped(line.unitCode)), 0) == Digits(line.quantity)
    && TextOf(xml, "cbc:LineExtensionAmount" + cur, 0) == Money(line.lineNet)
    && TextOf(xml, "cbc:TaxAmount" + cur, 0) == Money(line.lineVat)
    && TextOf(xml, "cbc:RoundingAmount" + cur, 0) == Money(line.lineNet + line.lineVat)
    && TextOf(xml, "cbc:Name", 0) == Escaped(line.name)
    && TextOf(xml, "cbc:Percent", 0) == line.vatRate
    && TextOf(xml, "cbc:PriceAmount" + cur, 0) == Money(line.unitPrice)
  }

  lemma {:induction false} LeafSays(piece: seq<Token>, name: Name, attributes: Attributes, text: Markup)
    requires WellFormed(piece) && Contains(piece, LeafPiece(name, attributes, text))
    ensures TextOf(Print(piece), name + attributes, 0) == text
  {
    hide WellFormed, Contains, TextOf, Print;
    EmbeddedText(piece, name + attributes, text, "/" + name);
  }

  lemma {:induction false} LineRead(piece: seq<Token>, t: LineText)
    requires WellFormed(piece) && LineHolds(piece, t)
    ensures TextOf(Print(piece), ID, 0) == t.id && TextOf(Print(piece), INVOICED_QUANTITY + t.unit, 0) == t.quantity
    ensures TextOf(Print(piece), LINE_EXTENSION_AMOUNT + InCurrency(t.currency), 0) == Money(t.net)
    ensures TextOf(Print(piece), TAX_AMOUNT + InCurrency(t.currency), 0) == Money(t.vat)
    ensures TextOf(Print(piece), ROUNDING_AMOUNT + InCurrency(t.currency), 0) == Money(t.net + t.vat)
    ensures TextOf(Print(piece), NAME, 0) == t.name && TextOf(Print(piece), PERCENT, 0) == t.rate
    ensures TextOf(Print(piece), PRICE_AMOUNT + InCurrency(t.currency), 0) == Money(t.price)
  {
    hide WellFormed, Contains, TextOf, Print, InCurrency, Money, LeafPiece, IsName;
    var cur := InCurrency(t.currency);
    LeafSays(piece, ID, "", t.id);
    LeafSays(piece, INVOICED_QUANTITY, t.unit, t.quantity);
    LeafSays(piece, LINE_EXTENSION_AMOUNT, cur, Money(t.net));
    LeafSays(piece, TAX_AMOUNT, cur, Money(t.vat));
    LeafSays(piece, ROUNDING_AMOUNT, cur, Money(t.net + t.vat));
    LeafSays(piece, NAME, "", t.name);
    LeafSays(piece, PERCENT, "", t.rate);
    LeafSays(piece, PRICE_AMOUNT, cur, Money(t.price));
    assert ID + "" == ID && NAME + "" == NAME && PERCENT + "" == PERCENT;
  }

  lemma {:induction false} LineSays(inp: Input, line: UblLine)
    requires Plain(inp.currency) && Plain(line.vatRate) && WellFormed(Piece(LineNode(inp, line), 2))
    ensures SaysLine(Print(Piece(LineNode(inp, line), 2)), inp.currency, line)
  {
    hide LineNode, LineParts, Piece, Contains, Digits, Escaped, Attribute, Print, LeafPiece, AmountPiece, WellFormed,
         TextOf, Money, IsName;
    LineNodeParts(inp, line);
    var n, t := LineNode(inp, line), TextsOf(inp, line);
    LineHasFront(n, t);
    LineHasTax(n, t);
    LineHasItem(n, t);
    LineHasPrice(n, t);
    LineRead(Piece(n, 2), t);
  }

  // ---- all the lines ----

  lemma {:induction false} PieceIsWellFormed(n: Node, indent: nat)
    requires n.Group?
    ensures WellFormed(Piece(n, indent))
  {
    hide Render, Piece;
    RenderIsClean(n, indent);
    RenderIsPiece(n, indent);
    assert Piece(n, indent) == Render(n, indent)[1..];
  }

  lemma {:induction false} UnclosedAre(ns: seq<Node>, name: string)
    requires forall i :: 0 <= i < |ns| ==> NodeUnclosed(ns[i], name)
    ensures NodesUnclosed(ns, name)
  {
    if ns != [] {
      UnclosedAre(ns[1..], name);
    }
  }

  lemma {:induction false} GroupUnclosed(name: Name, children: seq<Node>, m: string)
    requires name != m && forall i :: 0 <= i < |children| ==> NodeUnclosed(children[i], m)
    ensures NodeUnclosed(Group(name, children), m)
  {
    UnclosedAre(children, m);
  }

  /** The names in a line are none of them the line's own. */
  lemma {:induction false} LineNamesDiffer()
    ensures INVOICE_LINE !in {ID, INVOICED_QUANTITY, LINE_EXTENSION_AMOUNT, TAX_AMOUNT, ROUNDING_AMOUNT, NAME, PERCENT}
    ensures INVOICE_LINE !in {PRICE_AMOUNT, TAX_TOTAL, ITEM, CLASSIFIED_TAX_CATEGORY, TAX_SCHEME, PRICE}
  {
    LineNames();
    HeaderNames();
    TotalNames();
    assert |INVOICE_LINE| == 15 && |TAX_TOTAL| == 12 && |ITEM| == 8 && |PRICE| == 9;
    assert |CLASSIFIED_TAX_CATEGORY| == 25 && |TAX_SCHEME| == 13;
  }

  lemma {:induction false} LinePartsUnclosed(t: LineText)
    ensures NodesUnclosed(LineParts(t), INVOICE_LINE)
  {
    hide NodesUnclosed, Attribute, Money, IsName, Plain;
    LineNamesDiffer();
    var c := LineParts(t);
    var category := c[4].children[1];
    GroupUnclosed(TAX_TOTAL, c[3].children, INVOICE_LINE);
    GroupUnclosed(CLASSIFIED_TAX_CATEGORY, category.children, INVOICE_LINE);
    GroupUnclosed(ITEM, c[4].children, INVOICE_LINE);
    GroupUnclosed(PRICE, c[5].children, INVOICE_LINE);
    UnclosedAre(c, INVOICE_LINE);
  }

  lemma {:induction false} LineUnclosed(inp: Input, line: UblLine)
    requires Plain(inp.currency) && Plain(line.vatRate)
    ensures var n := LineNode(inp, line);
            n.Group? && n.name == INVOICE_LINE && NodesUnclosed(n.children, INVOICE_LINE)
  {
    hide LineNode, LineParts, NodesUnclosed, TextsOf;
    LineNodeParts(inp, line);
    LinePartsUnclosed(TextsOf(inp, line));
  }

  lemma {:induction false} LineCount(inp: Input, lines: seq<UblLine>)
    requires Plain(inp.currency) && forall i :: 0 <= i < |lines| ==> Plain(lines[i].vatRate)
    ensures |LineNodes(inp, lines)| == |lines|
    ensures forall i :: 0 <= i < |lines| ==> LineNodes(inp, lines)[i] == LineNode(inp, lines[i])
  {
    hide LineNode;
    if lines != [] {
      LineCount(inp, lines[1..]);
    }
  }

  /** Everything before the lines in the template. */
  function BeforeLines(inp: Input): seq<Node>
    requires ValidInput(inp)
  {
    Header(inp) + [CounterReference(inp)] + [HashReference(inp)]
    + [SupplierGroup(inp.seller), CustomerGroup(inp.buyer), Totals(inp), MonetaryTotal(inp)]
  }

  lemma {:induction false} BeforeLinesApart(inp: Input)
    requires ValidInput(inp)
    ensures NodesApart(BeforeLines(inp), INVOICE_LINE)
    ensures Body(inp) == BeforeLines(inp) + LineNodes(inp, inp.lines)
  {
    hide Header, CounterReference, HashReference, SupplierGroup, CustomerGroup, Totals, MonetaryTotal, LineNodes,
         NodesApart, NodeApart, Body;
    GroupNames();
    var header := Header(inp);
    var groups := [SupplierGroup(inp.seller), CustomerGroup(inp.buyer), Totals(inp), MonetaryTotal(inp)];
    HeaderApart(inp, INVOICE_LINE);
    ReferencesApart(inp, INVOICE_LINE);
    SupplierIsApart(inp.seller, INVOICE_LINE);
    CustomerIsApart(inp.buyer, INVOICE_LINE);
    TotalsApart(inp, INVOICE_LINE);
    MonetaryApart(inp, INVOICE_LINE);
    OneMore(header, CounterReference(inp), INVOICE_LINE);
    OneMore(header + [CounterReference(inp)], HashReference(inp), INVOICE_LINE);
    NodesAre(groups, INVOICE_LINE);
    NodesConcat(header + [CounterReference(inp)] + [HashReference(inp)], groups, INVOICE_LINE);
    BodyIsListed(inp);
  }

  /** The document around its lines: no line begins before them or after them. */
  lemma {:induction false} AroundLines(inp: Input) returns (front: seq<Token>, back: seq<Token>)
    requires ValidInput(inp)
    ensures Tokens(inp) == front + RenderAll(LineNodes(inp, inp.lines), 2) + back
    ensures Lacks(front, INVOICE_LINE) && Lacks(back, INVOICE_LINE)
  {
    hide BeforeLines, LineNodes, RenderAll, Body, Declaration, Namespaces, NodesApart, Assemble, Lacks;
    GroupNames();
    DeclarationStarts();
    BeforeLinesApart(inp);
    var before, lines := RenderAll(BeforeLines(inp), 2), RenderAll(LineNodes(inp, inp.lines), 2);
    AllApartLack(BeforeLines(inp), 2, INVOICE_LINE);
    RenderAllConcat(BeforeLines(inp), LineNodes(inp, inp.lines), 2);
    front, back := AssembledAround(Declaration(), Namespaces(), before, lines, inp.lines == []);
  }

  lemma {:induction false} AssembledAround(declaration: Markup, namespaces: Markup, before: seq<Token>,
                                           lines: seq<Token>, noLines: bool)
      returns (front: seq<Token>, back: seq<Token>)
    requires declaration != "" && declaration[0] == '?' && Lacks(before, INVOICE_LINE)
    ensures Assemble(declaration, namespaces, before + lines, noLines) == front + lines + back
    ensures Lacks(front, INVOICE_LINE) && Lacks(back, INVOICE_LINE)
  {
    GroupNames();
    var root := Tag("Invoice " + namespaces);
    assert root.body[0] == "Invoice "[0] == 'I' && "/Invoice"[0] == '/';
    var start := [Tag(declaration), Chars("\n"), root];
    var gap: seq<Token> := if noLines then [Chars("\n")] else [];
    front, back := start + before, gap + [Chars("\n"), Tag("/Invoice")];
    LacksConcat(start, before, INVOICE_LINE);
    assert Assemble(declaration, namespaces, before + lines, noLines) == front + lines + back;
  }

  /** In front of the first tag of a name a search finds what a search behind it finds. */
  lemma {:induction false} NothingBefore(ts: seq<Token>, front: seq<Token>, rest: seq<Token>, name: Name)
    requires ts == front + rest && WellFormed(ts) && Lacks(front, name)
    ensures Find(Print(ts), "<" + name + ">", 0) == Find(Print(ts), "<" + name + ">", |Print(front)|)
  {
    hide WellFormed;
    var s, p := Print(ts), "<" + name + ">";
    FindIsFirst(s, p, 0);
    FindIsFirst(s, p, |Print(front)|);
    var k := Find(s, p, 0);
    if k >= 0 {
      var i := TagOccurs(ts, name, k);
      assert ts[..|front|] == front;
      forall j | 0 <= j < |front|
        ensures ts[j] != Tag(name)
      {
        assert ts[j] == front[j];
      }
      PrintGrows(ts, |front|, i);
    }
  }

  lemma {:induction false} ElementsFrom(s: string, open: string, close: string, from: nat)
    requires open != "" && Find(s, open, 0) == Find(s, open, from)
    ensures Elements(s, open, close, 0) == Elements(s, open, close, from)
  {
  }

  ghost predicate SaysLines(found: seq<string>, currency: Markup, lines: seq<UblLine>) {
    |found| == |lines| && forall i :: 0 <= i < |lines| ==> SaysLine(found[i], currency, lines[i])
  }

  /** Cutting the line elements out of the document gives one for each line, in order, and each states its
      line. */
  lemma {:induction false} InvoiceSaysLines(inp: Input)
    requires ValidInput(inp)
    ensures SaysLines(LinesIn(BuildUblInvoice(inp)), inp.currency, inp.lines)
  {
    hide LineNode, LineNodes, Tokens, WellFormed, Lacks, Find, Print, Piece, SaysLine, Elements, NodesUnclosed,
         RenderAll;
    var ts, ns := Tokens(inp), LineNodes(inp, inp.lines);
    var front, back := AroundLines(inp);
    LineCount(inp, inp.lines);
    forall i | 0 <= i < |ns|
      ensures ns[i].Group? && ns[i].name == INVOICE_LINE && NodesUnclosed(ns[i].children, INVOICE_LINE)
      ensures SaysLine(Print(Piece(ns[i], 2)), inp.currency, inp.lines[i])
    {
      LineUnclosed(inp, inp.lines[i]);
      PieceIsWellFormed(ns[i], 2);
      LineSays(inp, inp.lines[i]);
    }
    DocumentIsWellFormed(inp);
    GroupNames();
    ElementsAre(ts, front, ns, 2, back, INVOICE_LINE);
    assert ts == front + (RenderAll(ns, 2) + back);
    NothingBefore(ts, front, RenderAll(ns, 2) + back, INVOICE_LINE);
    ElementsFrom(Print(ts), "<" + INVOICE_LINE + ">", "<" + ("/" + INVOICE_LINE) + ">", |Print(front)|);
    LinesInIs(Print(ts));
  }

  lemma {:induction false} LinesInIs(xml: string)
    ensures LinesIn(xml) == Elements(xml, "<" + INVOICE_LINE + ">", "<" + ("/" + INVOICE_LINE) + ">", 0)
  {
    hide Elements;
    assert "<" + INVOICE_LINE + ">" == "<cac:InvoiceLine>";
    assert "<" + ("/" + INVOICE_LINE) + ">" == "</cac:InvoiceLine>";
  }

  lemma {:induction false} DocumentIsWellFormed(inp: Input)
    requires ValidInput(inp)
    ensures WellFormed(Tokens(inp))
  {
    hide Tokens;
    TokensFacts(inp);
  }
}
