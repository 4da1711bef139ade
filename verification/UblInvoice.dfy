/** The invoice document of `buildUblInvoice` (`zatca-xml.ts`) as a token sequence. */
module UblInvoice {
  import opened Basics
  import opened Decimal
  import opened Text
  import opened Escape
  import opened Signing

  datatype UblLine = UblLine(id: nat, name: string, quantity: nat, unitCode: string,
                             unitPrice: int, lineNet: int, lineVat: int, vatRate: string)

  datatype Seller = Seller(name: string, vatNumber: string, address: Option<string>)

  datatype Buyer = Buyer(name: string, vatNumber: Option<string>)

  datatype InvoiceType = Simplified | Standard

  /** Amounts are halalas; `issuedAt` is the ISO form of the instant. */
  datatype Input = Input(invoiceNumber: string, uuid: string, issuedAt: string, icv: nat,
                         previousHash: string, invoiceType: InvoiceType, currency: string,
                         seller: Seller, buyer: Buyer, lines: seq<UblLine>,
                         totalNet: int, totalVat: int, totalGross: int, prepaid: Option<int>)

  /** What the template interpolates unescaped is free of brackets: a UUID, a base64 digest, a
      currency code, a rate and an ISO date. Everything else may be any text. */
  predicate ValidInput(inp: Input) {
    && Plain(inp.uuid) && Plain(inp.issuedAt) && |inp.issuedAt| >= 19
    && Plain(inp.previousHash) && Plain(inp.currency)
    && forall i :: 0 <= i < |inp.lines| ==> Plain(inp.lines[i].vatRate)
  }

  // ---- element names ----

  /** The name of an element that is not one stripping looks for. */
  type Name = s: string | IsName(s) witness "cbc:ID"

  predicate IsName(s: string) {
    Plain(s) && s != "" && s[0] != '/' && s != EXT_TAG && s != REF_TAG
  }

  const PROFILE_ID: Name := "cbc:ProfileID"
  const ID: Name := "cbc:ID"
  const UUID: Name := "cbc:UUID"
  const ISSUE_DATE: Name := "cbc:IssueDate"
  const ISSUE_TIME: Name := "cbc:IssueTime"
  const INVOICE_TYPE_CODE: Name := "cbc:InvoiceTypeCode"
  const DOCUMENT_CURRENCY_CODE: Name := "cbc:DocumentCurrencyCode"
  const TAX_CURRENCY_CODE: Name := "cbc:TaxCurrencyCode"
  const EMBEDDED_DOCUMENT_BINARY_OBJECT: Name := "cbc:EmbeddedDocumentBinaryObject"
  const STREET_NAME: Name := "cbc:StreetName"
  const IDENTIFICATION_CODE: Name := "cbc:IdentificationCode"
  const COMPANY_ID: Name := "cbc:CompanyID"
  const REGISTRATION_NAME: Name := "cbc:RegistrationName"
  const TAX_AMOUNT: Name := "cbc:TaxAmount"
  const TAXABLE_AMOUNT: Name := "cbc:TaxableAmount"
  const PERCENT: Name := "cbc:Percent"
  const LINE_EXTENSION_AMOUNT: Name := "cbc:LineExtensionAmount"
  const TAX_EXCLUSIVE_AMOUNT: Name := "cbc:TaxExclusiveAmount"
  const TAX_INCLUSIVE_AMOUNT: Name := "cbc:TaxInclusiveAmount"
  const PREPAID_AMOUNT: Name := "cbc:PrepaidAmount"
  const PAYABLE_AMOUNT: Name := "cbc:PayableAmount"
  const INVOICED_QUANTITY: Name := "cbc:InvoicedQuantity"
  const ROUNDING_AMOUNT: Name := "cbc:RoundingAmount"
  const NAME: Name := "cbc:Name"
  const PRICE_AMOUNT: Name := "cbc:PriceAmount"

  const ATTACHMENT: Name := "cac:Attachment"
  const ACCOUNTING_SUPPLIER_PARTY: Name := "cac:AccountingSupplierParty"
  const ACCOUNTING_CUSTOMER_PARTY: Name := "cac:AccountingCustomerParty"
  const PARTY: Name := "cac:Party"
  const PARTY_IDENTIFICATION: Name := "cac:PartyIdentification"
  const POSTAL_ADDRESS: Name := "cac:PostalAddress"
  const COUNTRY: Name := "cac:Country"
  const PARTY_TAX_SCHEME: Name := "cac:PartyTaxScheme"
  const TAX_SCHEME: Name := "cac:TaxScheme"
  const PARTY_LEGAL_ENTITY: Name := "cac:PartyLegalEntity"
  const TAX_TOTAL: Name := "cac:TaxTotal"
  const TAX_SUBTOTAL: Name := "cac:TaxSubtotal"
  const TAX_CATEGORY: Name := "cac:TaxCategory"
  const LEGAL_MONETARY_TOTAL: Name := "cac:LegalMonetaryTotal"
  const INVOICE_LINE: Name := "cac:InvoiceLine"
  const ITEM: Name := "cac:Item"
  const CLASSIFIED_TAX_CATEGORY: Name := "cac:ClassifiedTaxCategory"
  const PRICE: Name := "cac:Price"

  /** Text without brackets. */
  type Markup = s: string | Plain(s)

  /** Nothing, or a blank and attributes. */
  type Attributes = s: string | Plain(s) && (s != "" ==> s[0] == ' ')

  function Attribute(name: Markup, value: Markup): Attributes {
    " " + name + "=\"" + value + "\""
  }

  function Escaped(text: string): Markup {
    EscIsSafe(text);
    Esc(text)
  }

  function Number(n: nat): Markup {
    ValueOfDigits(n);
    Digits(n)
  }

  /** toFixed(2) */
  function Money(halalas: int): Markup {
    ValueOfPadded(Abs(halalas) % 100, 2);
    (if halalas < 0 then "-" else "") + Number(Abs(halalas) / 100) + "." + Padded(Abs(halalas) % 100, 2)
  }

  // ---- the document as a tree ----

  datatype Node =
    | Leaf(name: Name, attributes: Attributes, text: Markup)
    | Wrapped(outer: Name, name: Name, text: Markup)   // an element around a leaf, on one line
    | Gap                                              // a line with nothing on it
    | Group(name: Name, children: seq<Node>)
    | Reference(children: seq<Node>)                   // a document reference

  function Break(indent: nat): Token {
    Chars("\n" + seq(indent, _ => ' '))
  }

  /** A node on lines of its own, its children two columns further in. */
  function Render(n: Node, indent: nat): seq<Token>
    decreases n, 0
  {
    match n
    case Leaf(name, attributes, text) =>
      [Break(indent), Tag(name + attributes), Chars(text), Tag("/" + name)]
    case Wrapped(outer, name, text) =>
      [Break(indent), Tag(outer), Tag(name), Chars(text), Tag("/" + name), Tag("/" + outer)]
    case Gap => [Break(indent)]
    case Group(name, children) => Enclose(name, RenderAll(children, indent + 2), indent)
    case Reference(children) => Enclose(REF_TAG, RenderAll(children, indent + 2), indent)
  }

  function Enclose(name: string, inner: seq<Token>, indent: nat): seq<Token> {
    [Break(indent), Tag(name)] + (inner + [Break(indent), Tag("/" + name)])
  }

  function RenderAll(ns: seq<Node>, indent: nat): seq<Token>
    decreases ns, 1
  {
    if ns == [] then [] else Render(ns[0], indent) + RenderAll(ns[1..], indent)
  }

  // ---- the template ----

  function El(name: Name, text: Markup): Node {
    Leaf(name, "", text)
  }

  function Amount(name: Name, currency: Markup, halalas: int): Node {
    Leaf(name, Attribute("currencyID", currency), Money(halalas))
  }

  const VAT_SCHEME := Wrapped(TAX_SCHEME, ID, "VAT")

  function LineNode(inp: Input, line: UblLine): Node
    requires Plain(inp.currency) && Plain(line.vatRate)
  {
    Group(INVOICE_LINE, [
      El(ID, Number(line.id)),
      Leaf(INVOICED_QUANTITY, Attribute("unitCode", Escaped(line.unitCode)), Number(line.quantity)),
      Amount(LINE_EXTENSION_AMOUNT, inp.currency, line.lineNet),
      Group(TAX_TOTAL, [
        Amount(TAX_AMOUNT, inp.currency, line.lineVat),
        Amount(ROUNDING_AMOUNT, inp.currency, line.lineNet + line.lineVat)]),
      Group(ITEM, [
        El(NAME, Escaped(line.name)),
        Group(CLASSIFIED_TAX_CATEGORY, [El(ID, "S"), El(PERCENT, line.vatRate), VAT_SCHEME])]),
      Group(PRICE, [Amount(PRICE_AMOUNT, inp.currency, line.unitPrice)])])
  }

  function LineNodes(inp: Input, lines: seq<UblLine>): seq<Node>
    requires Plain(inp.currency) && forall i :: 0 <= i < |lines| ==> Plain(lines[i].vatRate)
  {
    if lines == [] then [] else [LineNode(inp, lines[0])] + LineNodes(inp, lines[1..])
  }

  function TypeCodeName(t: InvoiceType): Markup {
    if t == Standard then "0100000" else "0200000"
  }

  function Header(inp: Input): seq<Node>
    requires ValidInput(inp)
  {
    [El(PROFILE_ID, "reporting:1.0"),
     El(ID, Escaped(inp.invoiceNumber)),
     El(UUID, inp.uuid),
     El(ISSUE_DATE, inp.issuedAt[..10]),
     El(ISSUE_TIME, inp.issuedAt[11..19]),
     Leaf(INVOICE_TYPE_CODE, Attribute("name", TypeCodeName(inp.invoiceType)), "388"),
     El(DOCUMENT_CURRENCY_CODE, inp.currency),
     El(TAX_CURRENCY_CODE, inp.currency)]
  }

  function CounterReference(inp: Input): Node {
    Reference([El(ID, "ICV"), El(UUID, Number(inp.icv))])
  }

  function HashReference(inp: Input): Node
    requires ValidInput(inp)
  {
    Reference([
      El(ID, "PIH"),
      Group(ATTACHMENT, [Leaf(EMBEDDED_DOCUMENT_BINARY_OBJECT, Attribute("mimeCode", "text/plain"),
                              inp.previousHash)])])
  }

  function SupplierParty(seller: Seller): Node {
    Group(PARTY, [
      Group(PARTY_IDENTIFICATION, [Leaf(ID, Attribute("schemeID", "CRN"), Escaped(seller.vatNumber))]),
      Group(POSTAL_ADDRESS, [
        El(STREET_NAME, Escaped(if seller.address.Some? then seller.address.value else "N/A")),
        Wrapped(COUNTRY, IDENTIFICATION_CODE, "SA")]),
      Group(PARTY_TAX_SCHEME, [El(COMPANY_ID, Escaped(seller.vatNumber)), VAT_SCHEME]),
      Group(PARTY_LEGAL_ENTITY, [El(REGISTRATION_NAME, Escaped(seller.name))])])
  }

  function CustomerParty(buyer: Buyer): Node {
    Group(PARTY, [
      (if buyer.vatNumber.Some? && buyer.vatNumber.value != "" then
         Group(PARTY_TAX_SCHEME, [El(COMPANY_ID, Escaped(buyer.vatNumber.value)), VAT_SCHEME])
       else Gap),
      Group(PARTY_LEGAL_ENTITY, [El(REGISTRATION_NAME, Escaped(buyer.name))])])
  }

  function Totals(inp: Input): Node
    requires ValidInput(inp)
  {
    Group(TAX_TOTAL, [
      Amount(TAX_AMOUNT, inp.currency, inp.totalVat),
      Group(TAX_SUBTOTAL, [
        Amount(TAXABLE_AMOUNT, inp.currency, inp.totalNet),
        Amount(TAX_AMOUNT, inp.currency, inp.totalVat),
        Group(TAX_CATEGORY, [
          El(ID, "S"),
          El(PERCENT, if inp.lines == [] then "15.00" else inp.lines[0].vatRate),
          VAT_SCHEME])])])
  }

  function MonetaryTotal(inp: Input): Node
    requires ValidInput(inp)
  {
    var prepaid := if inp.prepaid.Some? then inp.prepaid.value else 0;
    Group(LEGAL_MONETARY_TOTAL, [
      Amount(LINE_EXTENSION_AMOUNT, inp.currency, inp.totalNet),
      Amount(TAX_EXCLUSIVE_AMOUNT, inp.currency, inp.totalNet),
      Amount(TAX_INCLUSIVE_AMOUNT, inp.currency, inp.totalGross),
      Amount(PREPAID_AMOUNT, inp.currency, prepaid),
      Amount(PAYABLE_AMOUNT, inp.currency, inp.totalGross - prepaid)])
  }

  function Remainder(inp: Input): seq<Node>
    requires ValidInput(inp)
  {
    [Group(ACCOUNTING_SUPPLIER_PARTY, [SupplierParty(inp.seller)]),
     Group(ACCOUNTING_CUSTOMER_PARTY, [CustomerParty(inp.buyer)]), Totals(inp), MonetaryTotal(inp)]
    + LineNodes(inp, inp.lines)
  }

  function Body(inp: Input): seq<Node>
    requires ValidInput(inp)
  {
    Header(inp) + [CounterReference(inp)] + [HashReference(inp)] + Remainder(inp)
  }

  function Join(parts: seq<Markup>): Markup {
    if parts == [] then "" else parts[0] + Join(parts[1..])
  }

  function Namespace(prefix: Markup, schema: Markup): Markup {
    Join(["xmlns", prefix, "=\"", "urn:oasis:names:", "specification:ubl:", "schema:xsd:", schema, "\""])
  }

  const CAC_SCHEMA: Markup := "CommonAggregateComponents-2"
  const CBC_SCHEMA: Markup := "CommonBasicComponents-2"
  const EXT_SCHEMA: Markup := "CommonExtensionComponents-2"
  const NEXT_LINE: Markup := "\n         "

  function OnNextLine(namespace: Markup): Markup {
    NEXT_LINE + namespace
  }

  const ROOT_NAMESPACE: Markup := Namespace("", "Invoice-2")
  const CAC_NAMESPACE: Markup := OnNextLine(Namespace(":cac", CAC_SCHEMA))
  const CBC_NAMESPACE: Markup := OnNextLine(Namespace(":cbc", CBC_SCHEMA))
  const EXT_NAMESPACE: Markup := OnNextLine(Namespace(":ext", EXT_SCHEMA))

  function Namespaces(): Markup {
    Join([ROOT_NAMESPACE, CAC_NAMESPACE, CBC_NAMESPACE, EXT_NAMESPACE])
  }

  function Declaration(): Markup {
    "?xml" + Join([Attribute("version", "1.0"), Attribute("encoding", "UTF-8"), "?"])
  }

  /** The declaration, the root's opening tag, its content and its closing tag. Without lines the
      template leaves an empty line where they would be. */
  function Assemble(declaration: Markup, namespaces: Markup, content: seq<Token>, noLines: bool): seq<Token> {
    [Tag(declaration), Chars("\n"), Tag("Invoice " + namespaces)]
    + content
    + (if noLines then [Chars("\n")] else [])
    + [Chars("\n"), Tag("/Invoice")]
  }

  function Tokens(inp: Input): seq<Token>
    requires ValidInput(inp)
  {
    Assemble(Declaration(), Namespaces(), RenderAll(Body(inp), 2), inp.lines == [])
  }

  function BuildUblInvoice(inp: Input): string
    requires ValidInput(inp)
  {
    Print(Tokens(inp))
  }
}
