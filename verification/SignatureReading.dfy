/** What a verifier reads off a signed invoice: the two digests, the signature and the certificate in
    the spliced extensions, the signed properties, and the QR code. Every reader searches the signed text
    itself. */
module SignatureReading {
  import opened Basics
  import opened Text
  import opened Signing
  import opened UblInvoice
  import opened SignatureBlock
  import opened SignedInvoice
  import opened EmbeddedFields
  import opened Pieces

  // ---- readers on the text ----

  /** The extensions element of a document, markers included. */
  function ExtensionsIn(xml: string): string {
    Cut(xml, Match(xml, ExtOpen(), ExtClose()))
  }

  /** Its QR reference. */
  function QrReferenceIn(xml: string): string {
    Cut(xml, Match(xml, QrOpen(), RefClose()))
  }

  function DataReference(): string {
    "ds:Reference" + (Attribute("Id", "invoiceSignedData") + Attribute("URI", ""))
  }

  function PropertiesReference(): string {
    "ds:Reference" + (Attribute("Type", SIGNATURE_PROPERTIES) + Attribute("URI", "#" + "xadesSignedProperties"))
  }

  /** The digest under the reference to the invoice. */
  function InvoiceDigestIn(xml: string): string {
    TextAfter(ExtensionsIn(xml), DataReference(), "ds:DigestValue")
  }

  /** The digest under the reference to the signed properties. */
  function PropertiesDigestIn(xml: string): string {
    TextAfter(ExtensionsIn(xml), PropertiesReference(), "ds:DigestValue")
  }

  function SignatureValueIn(xml: string): string {
    TextOf(ExtensionsIn(xml), "ds:SignatureValue", 0)
  }

  function CertificateIn(xml: string): string {
    TextOf(ExtensionsIn(xml), "ds:X509Certificate", 0)
  }

  function PropertiesTagText(): string {
    "xades:SignedProperties" + (XADES_NAMESPACE + (DS_NAMESPACE + Attribute("Id", SIGNED_PROPERTIES_ID)))
  }

  /** The signed properties element, as it stands in the document. */
  function PropertiesIn(xml: string): string {
    Cut(ExtensionsIn(xml),
        Match(ExtensionsIn(xml), "<" + PropertiesTagText() + ">", "<" + ("/" + SIGNED_PROPERTIES) + ">"))
  }

  function SigningTimeIn(xml: string): string {
    TextOf(PropertiesIn(xml), "xades:SigningTime", 0)
  }

  function CertificateDigestIn(xml: string): string {
    TextOf(PropertiesIn(xml), "ds:DigestValue", 0)
  }

  function IssuerNameIn(xml: string): string {
    TextOf(PropertiesIn(xml), "ds:X509IssuerName", 0)
  }

  function SerialNumberIn(xml: string): string {
    TextOf(PropertiesIn(xml), "ds:X509SerialNumber", 0)
  }

  function QrCodeIn(xml: string): string {
    TextOf(QrReferenceIn(xml), HashTag(), 0)
  }

  // ---- reading elements ----

  /** The element has no tag m: m is not a closing tag. */
  predicate Free(e: Element, m: string)
    decreases e, 0
  {
    match e
    case Holding(name, attributes, _) => name + attributes != m
    case Empty(name, attributes) => name + attributes + "/" != m
    case Nest(name, attributes, children) => name + attributes != m && AllFree(children, m)
  }

  predicate AllFree(es: seq<Element>, m: string)
    decreases es, 1
  {
    es == [] || (Free(es[0], m) && AllFree(es[1..], m))
  }

  lemma {:induction false} FreeLacks(e: Element, m: string)
    requires Free(e, m) && m != "" && m[0] != '/'
    ensures Lacks(Flatten(e), m)
    decreases e, 0
  {
    assert ("/" + e.name)[0] == '/';
    if e.Nest? {
      AllFreeLack(e.children, m);
    }
  }

  lemma {:induction false} AllFreeLack(es: seq<Element>, m: string)
    requires AllFree(es, m) && m != "" && m[0] != '/'
    ensures Lacks(FlattenAll(es), m)
    decreases es, 1
  {
    if es != [] {
      FreeLacks(es[0], m);
      AllFreeLack(es[1..], m);
    }
  }

  /** The opening tag of an element that has one. */
  function Opens(e: Element): string {
    e.name + e.attributes
  }

  ghost predicate Has(e: Element, part: Element) {
    !part.Empty? && Contains(Flatten(e), Flatten(part))
  }

  lemma {:induction false} FirstTag(e: Element)
    requires !e.Empty?
    ensures |Flatten(e)| > 1 && Flatten(e)[0] == Tag(Opens(e))
    ensures Flatten(e)[|Flatten(e)| - 1] == Tag("/" + e.name)
  {
  }

  lemma {:induction false} HasItself(e: Element)
    requires !e.Empty?
    ensures Has(e, e)
  {
    FirstTag(e);
    assert Flatten(e) == [] + Flatten(e) + [];
    assert Lacks([], Opens(e));
  }

  /** An element cut at its k-th child. */
  lemma {:induction false} NestSplit(e: Element, k: nat)
    requires e.Nest? && k < |e.children|
    ensures Flatten(e) == ([Tag(Opens(e))] + FlattenAll(e.children[..k])) + Flatten(e.children[k])
                          + (FlattenAll(e.children[k + 1..]) + [Tag("/" + e.name)])
  {
    var kids := e.children;
    FlattenConcat(kids[..k], kids[k..]);
    assert kids == kids[..k] + kids[k..] && kids[k..][1..] == kids[k + 1..];
  }

  /** A piece of an element's child, past children that have nothing to do with it. */
  lemma {:induction false} ChildHas(e: Element, k: nat, part: Element)
    requires e.Nest? && k < |e.children| && Has(e.children[k], part)
    requires part.name[0] != '/' && Opens(e) != Opens(part) && AllFree(e.children[..k], Opens(part))
    ensures Has(e, part)
  {
    hide Contains, Flatten, FlattenAll, AllFree, Opens;
    var kids, opening := e.children, [Tag(Opens(e))];
    FirstTag(part);
    OpensLikeName(part);
    NestSplit(e, k);
    AllFreeLack(kids[..k], Opens(part));
    LacksConcat(opening, FlattenAll(kids[..k]), Opens(part));
    ContainsWithin(opening + FlattenAll(kids[..k]), Flatten(kids[k]),
                   FlattenAll(kids[k + 1..]) + [Tag("/" + e.name)], Flatten(part));
  }

  lemma {:induction false} OpensLikeName(e: Element)
    ensures Opens(e) != "" && Opens(e)[0] == e.name[0]
  {
  }

  lemma {:induction false} FlattenConcat(a: seq<Element>, b: seq<Element>)
    ensures FlattenAll(a + b) == FlattenAll(a) + FlattenAll(b)
  {
    if a == [] {
      assert a + b == b;
    } else {
      hide Flatten;
      FlattenConcat(a[1..], b);
      assert (a + b)[1..] == a[1..] + b;
      Regroup(Flatten(a[0]), FlattenAll(a[1..]), FlattenAll(b));
    }
  }

  // ---- the elements of the block apart from each other ----

  lemma {:induction false} AlgorithmIsFree(name: Name, uri: Markup, m: string)
    requires Apart(name, m)
    ensures Free(Algorithm(name, uri), m)
  {
    ApartDiffer(name, Attribute("Algorithm", uri), m);
  }

  lemma {:induction false} ValueIsFree(name: Name, text: Markup, m: string)
    requires Apart(name, m)
    ensures Free(Value(name, text), m)
  {
    ApartDiffer(name, "", m);
  }

  lemma {:induction false} NestIsFree(name: Name, attributes: Attributes, children: seq<Element>, m: string)
    requires Apart(name, m) && AllFree(children, m)
    ensures Free(Nest(name, attributes, children), m)
  {
    ApartDiffer(name, attributes, m);
  }

  lemma {:induction false} FreeList(a: Element, rest: seq<Element>, m: string)
    requires Free(a, m) && AllFree(rest, m)
    ensures AllFree([a] + rest, m)
  {
    assert ([a] + rest)[1..] == rest;
  }

  lemma {:induction false} OneFree(a: Element, m: string)
    requires Free(a, m)
    ensures AllFree([a], m)
  {
    FreeList(a, [], m);
    assert [a] + [] == [a];
  }

  lemma {:induction false} TwoFree(a: Element, b: Element, m: string)
    requires Free(a, m) && Free(b, m)
    ensures AllFree([a, b], m)
  {
    OneFree(b, m);
    FreeList(a, [b], m);
    assert [a] + [b] == [a, b];
  }

  lemma {:induction false} ThreeFree(a: Element, b: Element, c: Element, m: string)
    requires Free(a, m) && Free(b, m) && Free(c, m)
    ensures AllFree([a, b, c], m)
  {
    TwoFree(b, c, m);
    FreeList(a, [b, c], m);
    assert [a] + [b, c] == [a, b, c];
  }

  // ---- the parts of the signature ----

  function DataReferenceElement(invoiceHash: Markup): Element {
    Nest(REFERENCE, Both(DATA_ID, DATA_URI), [
      Within(TRANSFORMS, [Algorithm(TRANSFORM, C14N11)]),
      Algorithm(DIGEST_METHOD, SHA256),
      Value(DIGEST_VALUE, invoiceHash)])
  }

  function PropertiesReferenceElement(propertiesHash: Markup): Element {
    Nest(REFERENCE, Both(PROPERTIES_TYPE, PROPERTIES_URI), [
      Algorithm(DIGEST_METHOD, SHA256),
      Value(DIGEST_VALUE, propertiesHash)])
  }

  /** The names inside SignedInfo. */
  ghost predicate ApartFromInfo(m: string) {
    && Apart(SIGNED_INFO, m) && Apart(CANONICALIZATION_METHOD, m) && Apart(SIGNATURE_METHOD, m)
    && Apart(REFERENCE, m) && Apart(TRANSFORMS, m) && Apart(TRANSFORM, m) && Apart(DIGEST_METHOD, m)
    && Apart(DIGEST_VALUE, m)
  }

  lemma {:induction false} ReferencesAreFree(invoiceHash: Markup, propertiesHash: Markup, m: string)
    requires Apart(REFERENCE, m) && Apart(TRANSFORMS, m) && Apart(TRANSFORM, m) && Apart(DIGEST_METHOD, m)
    requires Apart(DIGEST_VALUE, m)
    ensures Free(DataReferenceElement(invoiceHash), m) && Free(PropertiesReferenceElement(propertiesHash), m)
  {
    hide Free, AllFree, Apart, Algorithm, Value;
    AlgorithmIsFree(TRANSFORM, C14N11, m);
    OneFree(Algorithm(TRANSFORM, C14N11), m);
    NestIsFree(TRANSFORMS, "", [Algorithm(TRANSFORM, C14N11)], m);
    AlgorithmIsFree(DIGEST_METHOD, SHA256, m);
    ValueIsFree(DIGEST_VALUE, invoiceHash, m);
    ValueIsFree(DIGEST_VALUE, propertiesHash, m);
    ThreeFree(Within(TRANSFORMS, [Algorithm(TRANSFORM, C14N11)]), Algorithm(DIGEST_METHOD, SHA256),
              Value(DIGEST_VALUE, invoiceHash), m);
    TwoFree(Algorithm(DIGEST_METHOD, SHA256), Value(DIGEST_VALUE, propertiesHash), m);
    NestIsFree(REFERENCE, Both(DATA_ID, DATA_URI), DataReferenceElement(invoiceHash).children, m);
    NestIsFree(REFERENCE, Both(PROPERTIES_TYPE, PROPERTIES_URI),
               PropertiesReferenceElement(propertiesHash).children, m);
  }

  lemma {:induction false} InfoIsFree(invoiceHash: Markup, propertiesHash: Markup, m: string)
    requires ApartFromInfo(m)
    ensures Free(SignedInfo(invoiceHash, propertiesHash), m)
  {
    hide Free, AllFree, Apart, Algorithm, Both;
    var data, properties := DataReferenceElement(invoiceHash), PropertiesReferenceElement(propertiesHash);
    AlgorithmIsFree(CANONICALIZATION_METHOD, C14N11, m);
    AlgorithmIsFree(SIGNATURE_METHOD, ECDSA_SHA256, m);
    ReferencesAreFree(invoiceHash, propertiesHash, m);
    ThreeFree(Algorithm(SIGNATURE_METHOD, ECDSA_SHA256), data, properties, m);
    FreeList(Algorithm(CANONICALIZATION_METHOD, C14N11),
             [Algorithm(SIGNATURE_METHOD, ECDSA_SHA256), data, properties], m);
    var children := [Algorithm(CANONICALIZATION_METHOD, C14N11), Algorithm(SIGNATURE_METHOD, ECDSA_SHA256),
                     data, properties];
    assert [Algorithm(CANONICALIZATION_METHOD, C14N11)]
           + [Algorithm(SIGNATURE_METHOD, ECDSA_SHA256), data, properties] == children;
    NestIsFree(SIGNED_INFO, "", children, m);
    assert SignedInfo(invoiceHash, propertiesHash) == Nest(SIGNED_INFO, "", children);
  }

  lemma {:induction false} ValueOpens(name: Name, text: Markup)
    ensures var e := Value(name, text); Opens(e) == name && Has(e, e) && !e.Empty?
    ensures Flatten(Value(name, text)) == [Tag(name), Chars(text), Tag("/" + name)]
  {
    assert name + "" == name;
    HasItself(Value(name, text));
  }

  lemma {:induction false} DigestNames()
    ensures Apart(TRANSFORM, DIGEST_VALUE) && Apart(TRANSFORMS, DIGEST_VALUE) && Apart(DIGEST_METHOD, DIGEST_VALUE)
    ensures Apart(REFERENCE, DIGEST_VALUE) && DIGEST_VALUE[0] == 'd'
  {
    ApartAt(TRANSFORM, DIGEST_VALUE, 3);
    ApartAt(TRANSFORMS, DIGEST_VALUE, 3);
    ApartAt(REFERENCE, DIGEST_VALUE, 3);
    ApartAt(DIGEST_METHOD, DIGEST_VALUE, 9);
  }

  lemma {:induction false} DataReferenceHas(invoiceHash: Markup)
    ensures Has(DataReferenceElement(invoiceHash), Value(DIGEST_VALUE, invoiceHash))
    ensures Opens(DataReferenceElement(invoiceHash)) == DataReference()
  {
    hide Free, AllFree, Apart, Has, Algorithm, Value, Attribute;
    var e, part := DataReferenceElement(invoiceHash), Value(DIGEST_VALUE, invoiceHash);
    DigestNames();
    ValueOpens(DIGEST_VALUE, invoiceHash);
    AlgorithmIsFree(TRANSFORM, C14N11, DIGEST_VALUE);
    OneFree(Algorithm(TRANSFORM, C14N11), DIGEST_VALUE);
    NestIsFree(TRANSFORMS, "", [Algorithm(TRANSFORM, C14N11)], DIGEST_VALUE);
    AlgorithmIsFree(DIGEST_METHOD, SHA256, DIGEST_VALUE);
    TwoFree(e.children[0], e.children[1], DIGEST_VALUE);
    assert e.children[..2] == [e.children[0], e.children[1]];
    ApartDiffer(REFERENCE, e.attributes, DIGEST_VALUE);
    ValueName(DIGEST_VALUE, invoiceHash);
    ChildHas(e, 2, part);
  }

  lemma {:induction false} ValueName(name: Name, text: Markup)
    ensures Value(name, text).name == name
  {
  }

  lemma {:induction false} PropertiesReferenceHas(propertiesHash: Markup)
    ensures Has(PropertiesReferenceElement(propertiesHash), Value(DIGEST_VALUE, propertiesHash))
    ensures Opens(PropertiesReferenceElement(propertiesHash)) == PropertiesReference()
  {
    hide Free, AllFree, Apart, Has, Algorithm, Value;
    var e, part := PropertiesReferenceElement(propertiesHash), Value(DIGEST_VALUE, propertiesHash);
    DigestNames();
    PropertiesTag();
    ValueOpens(DIGEST_VALUE, propertiesHash);
    AlgorithmIsFree(DIGEST_METHOD, SHA256, DIGEST_VALUE);
    OneFree(e.children[0], DIGEST_VALUE);
    assert e.children[..1] == [e.children[0]];
    ApartDiffer(REFERENCE, e.attributes, DIGEST_VALUE);
    ValueName(DIGEST_VALUE, propertiesHash);
    ChildHas(e, 1, part);
  }

  lemma {:induction false} PropertiesTag()
    ensures REFERENCE + Both(PROPERTIES_TYPE, PROPERTIES_URI) == PropertiesReference()
  {
    hide Attribute;
    var parts: seq<Markup> := ["#", SIGNED_PROPERTIES_ID];
    assert parts[1..] == [SIGNED_PROPERTIES_ID] && parts[1..][1..] == [];
    assert Join(parts[1..]) == SIGNED_PROPERTIES_ID + Join([]) == SIGNED_PROPERTIES_ID;
    assert Join(parts) == "#" + SIGNED_PROPERTIES_ID;
    assert PROPERTIES_URI == Attribute("URI", Join(parts));
  }

  // ---- from the signature up to the whole block ----

  /** The names of the elements around the signature. */
  lemma {:induction false} WrapperNames()
    ensures EXT_TAG[0] == 'e' && UBL_EXTENSION[0] == 'e' && EXTENSION_URI[0] == 'e' && EXTENSION_CONTENT[0] == 'e'
    ensures DOCUMENT_SIGNATURES[0] == 's' && SIGNATURE_INFORMATION[0] == 's' && REFERENCED_SIGNATURE_ID[0] == 's'
    ensures ID[0] == 'c'
  {
  }

  lemma {:induction false} NoneFree(m: string)
    ensures AllFree([], m)
  {
  }

  /** One level up, past names that start otherwise. */
  lemma {:induction false} Climb(e: Element, k: nat, part: Element)
    requires e.Nest? && k < |e.children| && part.name[0] != '/' && e.name[0] != part.name[0]
    requires AllFree(e.children[..k], Opens(part)) && Has(e.children[k], part)
    ensures Has(e, part)
  {
    hide Free, AllFree, Has;
    assert Opens(part)[0] == part.name[0] && Opens(e)[0] == e.name[0];
    ChildHas(e, k, part);
  }

  lemma {:induction false} OnlyChild(e: Element, child: Element, part: Element)
    requires e.Nest? && e.children == [child] && Has(child, part)
    requires part.name[0] != '/' && e.name[0] != part.name[0]
    ensures Has(e, part)
  {
    hide Free, AllFree, Has;
    NoneFree(Opens(part));
    assert e.children[..0] == [];
    Climb(e, 0, part);
  }

  predicate InSignature(part: Element) {
    part.name[0] == 'd' || part.name[0] == 'x'
  }

  lemma {:induction false} OtherStart(name: Name, text: Markup, part: Element)
    requires name[0] != part.name[0]
    ensures Free(Value(name, text), Opens(part))
  {
    assert Opens(part)[0] == part.name[0];
    ApartAt(name, Opens(part), 0);
    ValueIsFree(name, text, Opens(part));
  }

  lemma {:induction false} InformationHas(id: Markup, reference: Markup, signature: Element, part: Element)
    requires Has(signature, part) && InSignature(part)
    ensures Has(Within(SIGNATURE_INFORMATION,
                       [Value(ID, id), Value(REFERENCED_SIGNATURE_ID, reference), signature]), part)
  {
    hide Free, AllFree, Has, Value;
    WrapperNames();
    var first, second := Value(ID, id), Value(REFERENCED_SIGNATURE_ID, reference);
    OtherStart(ID, id, part);
    OtherStart(REFERENCED_SIGNATURE_ID, reference, part);
    TwoFree(first, second, Opens(part));
    assert [first, second, signature][..2] == [first, second];
    Climb(Within(SIGNATURE_INFORMATION, [first, second, signature]), 2, part);
  }

  lemma {:induction false} AfterUri(uri: Markup, content: Element, part: Element)
    requires Has(content, part) && InSignature(part)
    ensures Has(Within(UBL_EXTENSION, [Value(EXTENSION_URI, uri), content]), part)
  {
    hide Free, AllFree, Has, Value;
    WrapperNames();
    var first := Value(EXTENSION_URI, uri);
    OtherStart(EXTENSION_URI, uri, part);
    OneFree(first, Opens(part));
    assert [first, content][..1] == [first];
    Climb(Within(UBL_EXTENSION, [first, content]), 1, part);
  }

  lemma {:induction false} ContentHas(information: Element, part: Element)
    requires Has(information, part) && InSignature(part)
    ensures var namespaces := Both(SIG_NAMESPACE, Both(SAC_NAMESPACE, SBC_NAMESPACE));
            Has(Within(EXTENSION_CONTENT, [Nest(DOCUMENT_SIGNATURES, namespaces, [information])]), part)
  {
    hide Has, Both;
    WrapperNames();
    var signatures := Nest(DOCUMENT_SIGNATURES, Both(SIG_NAMESPACE, Both(SAC_NAMESPACE, SBC_NAMESPACE)), [information]);
    OnlyChild(signatures, information, part);
    OnlyChild(Within(EXTENSION_CONTENT, [signatures]), signatures, part);
  }

  /** What stands in the signature stands in the whole extensions element. */
  lemma {:induction false} ExtensionHas(signature: Element, part: Element)
    requires Has(signature, part) && InSignature(part)
    ensures Contains(Around(Flatten(Extension(signature))), Flatten(part))
  {
    hide Has, Value, Around, Join, Both, Contains, Flatten, InSignature;
    var id, reference := Join([UBL_SPECIFICATION, "signature:1"]), Join([UBL_SPECIFICATION, "signature:Invoice"]);
    var information := Within(SIGNATURE_INFORMATION,
                              [Value(ID, id), Value(REFERENCED_SIGNATURE_ID, reference), signature]);
    var content := Within(EXTENSION_CONTENT, [
      Nest(DOCUMENT_SIGNATURES, Both(SIG_NAMESPACE, Both(SAC_NAMESPACE, SBC_NAMESPACE)), [information])]);
    InformationHas(id, reference, signature, part);
    ContentHas(information, part);
    AfterUri(Join([UBL_SPECIFICATION, "dsig:enveloped:xades"]), content, part);
    AroundHas(Extension(signature), part);
  }

  lemma {:induction false} AroundHas(e: Element, part: Element)
    requires Has(e, part) && InSignature(part)
    ensures Contains(Around(Flatten(e)), Flatten(part))
  {
    hide Contains;
    FirstTag(part);
    WrapperNames();
    assert Opens(part)[0] == part.name[0];
    ContainsWithin([Tag(EXT_TAG)], Flatten(e), [Tag("/" + EXT_TAG)], Flatten(part));
  }

  // ---- the paths down to the values ----

  function KeyInfo(certificate: Markup): Element {
    Within(KEY_INFO, [Within(X509_DATA, [Value(X509_CERTIFICATE, certificate)])])
  }

  function Properties(signer: Signer): Element {
    Within(OBJECT, [Nest(QUALIFYING_PROPERTIES, Both(XADES_NAMESPACE, OWN_TARGET), [SignedProperties(signer)])])
  }

  lemma {:induction false} SignatureChildren(parts: BlockParts)
    ensures var e := DsSignature(parts);
            && e.Nest? && e.name == SIGNATURE && e.attributes == Both(DS_NAMESPACE, OWN_ID) && |e.children| == 4
            && e.children[0] == SignedInfo(parts.invoiceHash, parts.propertiesHash)
            && e.children[1] == Value(SIGNATURE_VALUE, parts.signatureValue)
            && e.children[2] == KeyInfo(parts.signer.certificate)
            && e.children[3] == Properties(parts.signer)
  {
    hide SignedInfo, SignedProperties;
  }

  lemma {:induction false} InfoChildren(invoiceHash: Markup, propertiesHash: Markup)
    ensures var e := SignedInfo(invoiceHash, propertiesHash);
            && e.Nest? && e.name == SIGNED_INFO && e.attributes == "" && |e.children| == 4
            && e.children[0] == Algorithm(CANONICALIZATION_METHOD, C14N11)
            && e.children[1] == Algorithm(SIGNATURE_METHOD, ECDSA_SHA256)
            && e.children[2] == DataReferenceElement(invoiceHash)
            && e.children[3] == PropertiesReferenceElement(propertiesHash)
  {
  }

  lemma {:induction false} ReferenceNames()
    ensures |REFERENCE| == 12 && REFERENCE[0] == 'd' && REFERENCE[3] == 'R'
    ensures SIGNED_INFO[3] == 'S' && SIGNATURE[3] == 'S' && SIGNATURE_METHOD[3] == 'S'
    ensures CANONICALIZATION_METHOD[3] == 'C'
    ensures |SIGNED_INFO| > 3 && |SIGNATURE| > 3 && |SIGNATURE_METHOD| > 3 && |CANONICALIZATION_METHOD| > 3
  {
  }

  /** What precedes the references in the signature has nothing to do with them. */
  lemma {:induction false} BeforeReferences(attributes: string)
    ensures var m := REFERENCE + attributes;
            && m[0] == 'd' && Apart(SIGNED_INFO, m) && Apart(SIGNATURE, m)
            && Free(Algorithm(CANONICALIZATION_METHOD, C14N11), m) && Free(Algorithm(SIGNATURE_METHOD, ECDSA_SHA256), m)
  {
    hide Free, Apart, Algorithm;
    var m := REFERENCE + attributes;
    ReferenceNames();
    assert m[0] == REFERENCE[0] && m[3] == REFERENCE[3];
    ApartAt(CANONICALIZATION_METHOD, m, 3);
    ApartAt(SIGNATURE_METHOD, m, 3);
    ApartAt(SIGNED_INFO, m, 3);
    ApartAt(SIGNATURE, m, 3);
    AlgorithmIsFree(CANONICALIZATION_METHOD, C14N11, m);
    AlgorithmIsFree(SIGNATURE_METHOD, ECDSA_SHA256, m);
  }

  lemma {:induction false} SignatureHasFirst(parts: BlockParts, part: Element)
    requires Has(SignedInfo(parts.invoiceHash, parts.propertiesHash), part)
    requires part.name[0] == 'd' && Apart(SIGNATURE, Opens(part))
    ensures Contains(UblExtensions(parts), Flatten(part))
  {
    hide Free, AllFree, Apart, Has, Contains, SignedInfo, DsSignature, Extension, Around;
    var signature := DsSignature(parts);
    SignatureChildren(parts);
    ApartDiffer(SIGNATURE, signature.attributes, Opens(part));
    NoneFree(Opens(part));
    assert signature.children[..0] == [];
    ChildHas(signature, 0, part);
    ExtensionHas(signature, part);
  }

  /** The block holds the reference to the invoice, with the invoice hash. */
  lemma {:induction false} BlockHasData(parts: BlockParts)
    ensures Contains(UblExtensions(parts), Flatten(DataReferenceElement(parts.invoiceHash)))
  {
    hide Free, AllFree, Apart, Has, Contains, Algorithm, SignedInfo, UblExtensions, Attribute, Flatten;
    var info, part := SignedInfo(parts.invoiceHash, parts.propertiesHash), DataReferenceElement(parts.invoiceHash);
    BeforeReferences(part.attributes);
    InfoChildren(parts.invoiceHash, parts.propertiesHash);
    HasItself(part);
    TwoFree(info.children[0], info.children[1], Opens(part));
    assert info.children[..2] == [info.children[0], info.children[1]];
    ApartDiffer(SIGNED_INFO, info.attributes, Opens(part));
    ReferenceNames();
    ChildHas(info, 2, part);
    SignatureHasFirst(parts, part);
  }

  lemma {:induction false} TheReferencesDiffer()
    ensures DataReference() != PropertiesReference()
  {
    var a, b := DataReference(), PropertiesReference();
    assert a[13] == 'I' && b[13] == 'T';
  }

  lemma {:induction false} InsideNames()
    ensures |TRANSFORM| > 3 && |TRANSFORMS| > 3 && |DIGEST_METHOD| > 3 && |DIGEST_VALUE| > 3
    ensures TRANSFORM[3] == 'T' && TRANSFORMS[3] == 'T' && DIGEST_METHOD[3] == 'D' && DIGEST_VALUE[3] == 'D'
  {
  }

  lemma {:induction false} NestOtherTag(name: Name, attributes: Attributes, children: seq<Element>, m: string)
    requires name + attributes != m && AllFree(children, m)
    ensures Free(Nest(name, attributes, children), m)
  {
  }

  lemma {:induction false} DataIsNotProperties(invoiceHash: Markup, propertiesHash: Markup)
    ensures Free(DataReferenceElement(invoiceHash), Opens(PropertiesReferenceElement(propertiesHash)))
  {
    hide Free, AllFree, Apart, Algorithm, Value, PropertiesReference, Attribute;
    var m := Opens(PropertiesReferenceElement(propertiesHash));
    PropertiesTag();
    BeforeReferences(Both(PROPERTIES_TYPE, PROPERTIES_URI));
    ReferenceNames();
    InsideNames();
    TheReferencesDiffer();
    assert m[3] == REFERENCE[3];
    ApartAt(TRANSFORM, m, 3);
    ApartAt(TRANSFORMS, m, 3);
    ApartAt(DIGEST_METHOD, m, 3);
    ApartAt(DIGEST_VALUE, m, 3);
    AlgorithmIsFree(TRANSFORM, C14N11, m);
    OneFree(Algorithm(TRANSFORM, C14N11), m);
    NestIsFree(TRANSFORMS, "", [Algorithm(TRANSFORM, C14N11)], m);
    AlgorithmIsFree(DIGEST_METHOD, SHA256, m);
    ValueIsFree(DIGEST_VALUE, invoiceHash, m);
    ThreeFree(Within(TRANSFORMS, [Algorithm(TRANSFORM, C14N11)]), Algorithm(DIGEST_METHOD, SHA256),
              Value(DIGEST_VALUE, invoiceHash), m);
    NestOtherTag(REFERENCE, Both(DATA_ID, DATA_URI), DataReferenceElement(invoiceHash).children, m);
  }

  /** And the reference to the signed properties, with their hash. */
  lemma {:induction false} BlockHasProperties(parts: BlockParts)
    ensures Contains(UblExtensions(parts), Flatten(PropertiesReferenceElement(parts.propertiesHash)))
  {
    hide Free, AllFree, Apart, Has, Contains, Algorithm, SignedInfo, UblExtensions, Attribute, Flatten,
         DataReferenceElement;
    var info := SignedInfo(parts.invoiceHash, parts.propertiesHash);
    var part := PropertiesReferenceElement(parts.propertiesHash);
    BeforeReferences(part.attributes);
    InfoChildren(parts.invoiceHash, parts.propertiesHash);
    DataIsNotProperties(parts.invoiceHash, parts.propertiesHash);
    HasItself(part);
    ThreeFree(info.children[0], info.children[1], info.children[2], Opens(part));
    assert info.children[..3] == [info.children[0], info.children[1], info.children[2]];
    ApartDiffer(SIGNED_INFO, info.attributes, Opens(part));
    ReferenceNames();
    ChildHas(info, 3, part);
    SignatureHasFirst(parts, part);
  }

  lemma {:induction false} ValueNames()
    ensures |SIGNATURE_VALUE| == 17 && SIGNATURE_VALUE[0] == 'd' && SIGNATURE_VALUE[3] == 'S'
    ensures SIGNATURE_VALUE[7] == 'a' && SIGNATURE_VALUE[12] == 'V'
    ensures |SIGNED_INFO| > 7 && SIGNED_INFO[7] == 'e' && |SIGNATURE_METHOD| > 12 && SIGNATURE_METHOD[12] == 'M'
    ensures |SIGNATURE| == 12
  {
  }

  lemma {:induction false} ValueIsApart()
    ensures ApartFromInfo(SIGNATURE_VALUE)
  {
    ValueNames();
    ReferenceNames();
    InsideNames();
    ApartAt(SIGNED_INFO, SIGNATURE_VALUE, 7);
    ApartAt(CANONICALIZATION_METHOD, SIGNATURE_VALUE, 3);
    ApartAt(SIGNATURE_METHOD, SIGNATURE_VALUE, 12);
    ApartAt(REFERENCE, SIGNATURE_VALUE, 3);
    ApartAt(TRANSFORMS, SIGNATURE_VALUE, 3);
    ApartAt(TRANSFORM, SIGNATURE_VALUE, 3);
    ApartAt(DIGEST_METHOD, SIGNATURE_VALUE, 3);
    ApartAt(DIGEST_VALUE, SIGNATURE_VALUE, 3);
  }

  /** The signature's tag has a blank where the name of its value goes on. */
  lemma {:induction false} SignatureTag()
    ensures SIGNATURE + Both(DS_NAMESPACE, OWN_ID) != SIGNATURE_VALUE
  {
    hide Join;
    ValueNames();
    var tag := SIGNATURE + Both(DS_NAMESPACE, OWN_ID);
    assert DS_NAMESPACE[0] == ' ';
    assert tag[12] == Both(DS_NAMESPACE, OWN_ID)[0] == ' ';
  }

  lemma {:induction false} BlockHasSignatureValue(parts: BlockParts)
    ensures Contains(UblExtensions(parts), Flatten(Value(SIGNATURE_VALUE, parts.signatureValue)))
  {
    hide Free, AllFree, Apart, Has, Contains, Extension, DsSignature, SignedInfo, KeyInfo, Properties, Around, Value,
         Flatten;
    var signature, part := DsSignature(parts), Value(SIGNATURE_VALUE, parts.signatureValue);
    SignatureChildren(parts);
    ValueNames();
    ValueIsApart();
    ValueOpens(SIGNATURE_VALUE, parts.signatureValue);
    ValueName(SIGNATURE_VALUE, parts.signatureValue);
    InfoIsFree(parts.invoiceHash, parts.propertiesHash, SIGNATURE_VALUE);
    OneFree(signature.children[0], SIGNATURE_VALUE);
    assert signature.children[..1] == [signature.children[0]];
    SignatureTag();
    ChildHas(signature, 1, part);
    ExtensionHas(signature, part);
  }

  lemma {:induction false} CertificateNames()
    ensures |X509_CERTIFICATE| == 18 && X509_CERTIFICATE[0] == 'd' && X509_CERTIFICATE[3] == 'X'
    ensures X509_CERTIFICATE[7] == 'C' && |X509_DATA| > 7 && X509_DATA[7] == 'D'
    ensures |KEY_INFO| > 3 && KEY_INFO[3] == 'K'
  {
  }

  lemma {:induction false} FirstLetters()
    ensures SIGNED_INFO[0] == 'd' && CANONICALIZATION_METHOD[0] == 'd' && SIGNATURE_METHOD[0] == 'd'
    ensures TRANSFORMS[0] == 'd' && TRANSFORM[0] == 'd' && DIGEST_METHOD[0] == 'd' && DIGEST_VALUE[0] == 'd'
    ensures KEY_INFO[0] == 'd' && SIGNATURE[0] == 'd' && X509_DATA[0] == 'd' && X509_CERTIFICATE[0] == 'd'
    ensures OBJECT[0] == 'd'
  {
  }

  /** Tags "x..." and "ds:X..." are apart from what precedes the key. */
  lemma {:induction false} ApartFromX(m: string)
    requires |m| > 3 && (m[0] == 'x' || (m[0] == 'd' && m[3] == 'X'))
    ensures ApartFromInfo(m) && Apart(SIGNATURE_VALUE, m) && Apart(KEY_INFO, m) && Apart(SIGNATURE, m)
  {
    ValueNames();
    ReferenceNames();
    InsideNames();
    CertificateNames();
    FirstLetters();
    var i: nat := if m[0] == 'x' then 0 else 3;
    ApartAt(SIGNED_INFO, m, i);
    ApartAt(CANONICALIZATION_METHOD, m, i);
    ApartAt(SIGNATURE_METHOD, m, i);
    ApartAt(REFERENCE, m, i);
    ApartAt(TRANSFORMS, m, i);
    ApartAt(TRANSFORM, m, i);
    ApartAt(DIGEST_METHOD, m, i);
    ApartAt(DIGEST_VALUE, m, i);
    ApartAt(SIGNATURE_VALUE, m, i);
    ApartAt(KEY_INFO, m, i);
    ApartAt(SIGNATURE, m, i);
  }

  lemma {:induction false} KeyInfoHas(certificate: Markup)
    ensures Has(KeyInfo(certificate), Value(X509_CERTIFICATE, certificate))
  {
    hide Free, AllFree, Apart, Has, Value;
    var part := Value(X509_CERTIFICATE, certificate);
    var data := Within(X509_DATA, [part]);
    CertificateNames();
    ApartFromX(X509_CERTIFICATE);
    ValueOpens(X509_CERTIFICATE, certificate);
    ValueName(X509_CERTIFICATE, certificate);
    NoneFree(X509_CERTIFICATE);
    assert data.children[..0] == [];
    ApartAt(X509_DATA, X509_CERTIFICATE, 7);
    ApartDiffer(X509_DATA, "", X509_CERTIFICATE);
    ChildHas(data, 0, part);
    var info := Within(KEY_INFO, [data]);
    assert info.children[..0] == [];
    ApartDiffer(KEY_INFO, "", X509_CERTIFICATE);
    ChildHas(info, 0, part);
  }

  lemma {:induction false} BlockHasCertificate(parts: BlockParts)
    ensures Contains(UblExtensions(parts), Flatten(Value(X509_CERTIFICATE, parts.signer.certificate)))
  {
    hide Free, AllFree, Apart, Has, Contains, Extension, DsSignature, SignedInfo, KeyInfo, Properties, Around, Value,
         Flatten;
    var signature, part, m := DsSignature(parts), Value(X509_CERTIFICATE, parts.signer.certificate), X509_CERTIFICATE;
    SignatureChildren(parts);
    CertificateNames();
    ApartFromX(m);
    KeyInfoHas(parts.signer.certificate);
    ValueOpens(m, parts.signer.certificate);
    ValueName(m, parts.signer.certificate);
    InfoIsFree(parts.invoiceHash, parts.propertiesHash, m);
    ValueIsFree(SIGNATURE_VALUE, parts.signatureValue, m);
    TwoFree(signature.children[0], signature.children[1], m);
    assert signature.children[..2] == [signature.children[0], signature.children[1]];
    ApartDiffer(SIGNATURE, signature.attributes, m);
    ChildHas(signature, 2, part);
    ExtensionHas(signature, part);
  }

  // ---- the signed properties ----

  lemma {:induction false} PropertiesNames()
    ensures |QUALIFYING_PROPERTIES| > 6 && QUALIFYING_PROPERTIES[0] == 'x' && QUALIFYING_PROPERTIES[6] == 'Q'
    ensures |SIGNED_PROPERTIES| > 6 && SIGNED_PROPERTIES[0] == 'x' && SIGNED_PROPERTIES[6] == 'S'
  {
  }

  lemma {:induction false} KeyInfoIsFree(certificate: Markup, m: string)
    requires m != "" && m[0] == 'x'
    ensures Free(KeyInfo(certificate), m)
  {
    hide Free, AllFree, Apart, Value;
    FirstLetters();
    ApartAt(X509_CERTIFICATE, m, 0);
    ApartAt(X509_DATA, m, 0);
    ApartAt(KEY_INFO, m, 0);
    ValueIsFree(X509_CERTIFICATE, certificate, m);
    OneFree(Value(X509_CERTIFICATE, certificate), m);
    NestIsFree(X509_DATA, "", [Value(X509_CERTIFICATE, certificate)], m);
    OneFree(Within(X509_DATA, [Value(X509_CERTIFICATE, certificate)]), m);
    NestIsFree(KEY_INFO, "", [Within(X509_DATA, [Value(X509_CERTIFICATE, certificate)])], m);
  }

  lemma {:induction false} ObjectHas(signer: Signer)
    ensures Has(Properties(signer), SignedProperties(signer))
  {
    hide Free, AllFree, Apart, Has, SignedProperties, Both;
    var part := SignedProperties(signer);
    var m := Opens(part);
    SignedPropertiesShape(signer);
    PropertiesNames();
    FirstLetters();
    HasItself(part);
    assert m[0] == part.name[0] && m[6] == part.name[6];
    var qualifying := Nest(QUALIFYING_PROPERTIES, Both(XADES_NAMESPACE, OWN_TARGET), [part]);
    NoneFree(m);
    assert qualifying.children[..0] == [];
    ApartAt(QUALIFYING_PROPERTIES, m, 6);
    ApartDiffer(QUALIFYING_PROPERTIES, qualifying.attributes, m);
    ChildHas(qualifying, 0, part);
    OnlyChild(Within(OBJECT, [qualifying]), qualifying, part);
  }

  lemma {:induction false} SignedPropertiesShape(signer: Signer)
    ensures SignedProperties(signer).Nest? && SignedProperties(signer).name == SIGNED_PROPERTIES
  {
  }

  /** The block holds the very properties whose hash it states. */
  lemma {:induction false} BlockHasSignedProperties(parts: BlockParts)
    ensures Contains(UblExtensions(parts), Flatten(SignedProperties(parts.signer)))
  {
    hide Free, AllFree, Apart, Has, Contains, Extension, DsSignature, SignedInfo, KeyInfo, Properties, Around, Value,
         Flatten, SignedProperties;
    var signature, part := DsSignature(parts), SignedProperties(parts.signer);
    var m := Opens(part);
    SignatureChildren(parts);
    SignedPropertiesShape(parts.signer);
    PropertiesNames();
    assert |m| > 3 && m[0] == part.name[0];
    ApartFromX(m);
    ObjectHas(parts.signer);
    InfoIsFree(parts.invoiceHash, parts.propertiesHash, m);
    ValueIsFree(SIGNATURE_VALUE, parts.signatureValue, m);
    KeyInfoIsFree(parts.signer.certificate, m);
    ThreeFree(signature.children[0], signature.children[1], signature.children[2], m);
    assert signature.children[..3] == [signature.children[0], signature.children[1], signature.children[2]];
    ApartDiffer(SIGNATURE, signature.attributes, m);
    ChildHas(signature, 3, part);
    ExtensionHas(signature, part);
  }

  // ---- inside the signed properties ----

  lemma {:induction false} InnerNames()
    ensures SIGNED_SIGNATURE_PROPERTIES[0] == 'x' && SIGNING_TIME[0] == 'x' && SIGNING_CERTIFICATE[0] == 'x'
    ensures CERT[0] == 'x' && CERT_DIGEST[0] == 'x' && ISSUER_SERIAL[0] == 'x'
    ensures X509_ISSUER_NAME[0] == 'd' && |X509_ISSUER_NAME| > 7 && X509_ISSUER_NAME[3] == 'X'
    ensures X509_ISSUER_NAME[7] == 'I'
    ensures X509_SERIAL_NUMBER[0] == 'd' && |X509_SERIAL_NUMBER| > 7 && X509_SERIAL_NUMBER[3] == 'X'
    ensures X509_SERIAL_NUMBER[7] == 'S'
  {
  }

  function CertElement(signer: Signer): Element {
    Within(CERT, [
      Within(CERT_DIGEST, [Algorithm(DIGEST_METHOD, SHA256), Value(DIGEST_VALUE, signer.certDigest)]),
      Within(ISSUER_SERIAL, [
        Value(X509_ISSUER_NAME, EscapedName(signer.issuerName)),
        Value(X509_SERIAL_NUMBER, signer.serialNumber)])])
  }

  lemma {:induction false} DigestInCert(signer: Signer)
    ensures Has(CertElement(signer), Value(DIGEST_VALUE, signer.certDigest))
  {
    hide Free, AllFree, Apart, Has, Value, Algorithm;
    var part := Value(DIGEST_VALUE, signer.certDigest);
    var digest := Within(CERT_DIGEST, [Algorithm(DIGEST_METHOD, SHA256), part]);
    InnerNames();
    DigestNames();
    ValueOpens(DIGEST_VALUE, signer.certDigest);
    ValueName(DIGEST_VALUE, signer.certDigest);
    AlgorithmIsFree(DIGEST_METHOD, SHA256, DIGEST_VALUE);
    OneFree(Algorithm(DIGEST_METHOD, SHA256), DIGEST_VALUE);
    assert digest.children[..1] == [Algorithm(DIGEST_METHOD, SHA256)];
    Climb(digest, 1, part);
    NoneFree(DIGEST_VALUE);
    assert CertElement(signer).children[..0] == [];
    Climb(CertElement(signer), 0, part);
  }

  lemma {:induction false} DigestIsFree(digest: Markup, m: string)
    requires |m| > 3 && m[0] == 'd' && m[3] == 'X'
    ensures Free(Within(CERT_DIGEST, [Algorithm(DIGEST_METHOD, SHA256), Value(DIGEST_VALUE, digest)]), m)
  {
    hide Free, AllFree, Apart, Value, Algorithm;
    InnerNames();
    InsideNames();
    ApartAt(CERT_DIGEST, m, 0);
    ApartAt(DIGEST_METHOD, m, 3);
    ApartAt(DIGEST_VALUE, m, 3);
    AlgorithmIsFree(DIGEST_METHOD, SHA256, m);
    ValueIsFree(DIGEST_VALUE, digest, m);
    TwoFree(Algorithm(DIGEST_METHOD, SHA256), Value(DIGEST_VALUE, digest), m);
    NestIsFree(CERT_DIGEST, "", [Algorithm(DIGEST_METHOD, SHA256), Value(DIGEST_VALUE, digest)], m);
  }

  lemma {:induction false} IssuerInCert(signer: Signer)
    ensures Has(CertElement(signer), Value(X509_ISSUER_NAME, EscapedName(signer.issuerName)))
    ensures Has(CertElement(signer), Value(X509_SERIAL_NUMBER, signer.serialNumber))
  {
    hide Free, AllFree, Apart, Has, Value, Algorithm, EscapedName;
    var issuer := Value(X509_ISSUER_NAME, EscapedName(signer.issuerName));
    var serial := Value(X509_SERIAL_NUMBER, signer.serialNumber);
    var both, cert := Within(ISSUER_SERIAL, [issuer, serial]), CertElement(signer);
    InnerNames();
    ValueOpens(X509_ISSUER_NAME, EscapedName(signer.issuerName));
    ValueName(X509_ISSUER_NAME, EscapedName(signer.issuerName));
    ValueOpens(X509_SERIAL_NUMBER, signer.serialNumber);
    ValueName(X509_SERIAL_NUMBER, signer.serialNumber);
    NoneFree(X509_ISSUER_NAME);
    assert both.children[..0] == [];
    Climb(both, 0, issuer);
    ApartAt(X509_ISSUER_NAME, X509_SERIAL_NUMBER, 7);
    ValueIsFree(X509_ISSUER_NAME, EscapedName(signer.issuerName), X509_SERIAL_NUMBER);
    OneFree(issuer, X509_SERIAL_NUMBER);
    assert both.children[..1] == [issuer];
    Climb(both, 1, serial);
    DigestIsFree(signer.certDigest, X509_ISSUER_NAME);
    DigestIsFree(signer.certDigest, X509_SERIAL_NUMBER);
    OneFree(cert.children[0], X509_ISSUER_NAME);
    OneFree(cert.children[0], X509_SERIAL_NUMBER);
    assert cert.children[..1] == [cert.children[0]];
    Climb(cert, 1, issuer);
    Climb(cert, 1, serial);
  }

  /** What stands in the certificate element stands in the signed properties. */
  lemma {:induction false} PropertiesHave(signer: Signer, part: Element)
    requires Has(CertElement(signer), part) && part.name[0] == 'd'
    ensures Contains(Flatten(SignedProperties(signer)), Flatten(part))
  {
    hide Free, AllFree, Apart, Has, Value, CertElement, Both;
    InnerNames();
    PropertiesNames();
    PropertiesTree(signer);
    var time := Value(SIGNING_TIME, signer.signingTime);
    var certificate := Within(SIGNING_CERTIFICATE, [CertElement(signer)]);
    var inner := Within(SIGNED_SIGNATURE_PROPERTIES, [time, certificate]);
    OnlyChild(certificate, CertElement(signer), part);
    OtherStart(SIGNING_TIME, signer.signingTime, part);
    OneFree(time, Opens(part));
    assert inner.children[..1] == [time];
    Climb(inner, 1, part);
    OnlyChild(SignedProperties(signer), inner, part);
    HasMeans(SignedProperties(signer), part);
  }

  lemma {:induction false} HasMeans(e: Element, part: Element)
    requires Has(e, part)
    ensures Contains(Flatten(e), Flatten(part))
  {
  }

  lemma {:induction false} PropertiesTree(signer: Signer)
    ensures SignedProperties(signer)
         == Nest(SIGNED_PROPERTIES, Both(XADES_NAMESPACE, Both(DS_NAMESPACE, PROPERTIES_ID)), [
              Within(SIGNED_SIGNATURE_PROPERTIES, [
                Value(SIGNING_TIME, signer.signingTime), Within(SIGNING_CERTIFICATE, [CertElement(signer)])])])
  {
    hide Value, Algorithm, EscapedName, Both;
  }

  lemma {:induction false} TimeNames()
    ensures |SIGNING_TIME| == 17 && SIGNING_TIME[10] == 'i'
    ensures |SIGNED_PROPERTIES| > 10 && SIGNED_PROPERTIES[10] == 'e'
    ensures |SIGNED_SIGNATURE_PROPERTIES| > 10 && SIGNED_SIGNATURE_PROPERTIES[10] == 'e'
  {
  }

  lemma {:induction false} PropertiesHaveTime(signer: Signer)
    ensures Contains(Flatten(SignedProperties(signer)), Flatten(Value(SIGNING_TIME, signer.signingTime)))
  {
    hide Free, AllFree, Apart, Has, Value, CertElement, Both;
    InnerNames();
    TimeNames();
    PropertiesTree(signer);
    var part, whole := Value(SIGNING_TIME, signer.signingTime), SignedProperties(signer);
    ValueOpens(SIGNING_TIME, signer.signingTime);
    ValueName(SIGNING_TIME, signer.signingTime);
    NoneFree(SIGNING_TIME);
    var inner := whole.children[0];
    assert inner.children[..0] == [] && whole.children[..0] == [];
    ApartAt(SIGNED_SIGNATURE_PROPERTIES, SIGNING_TIME, 10);
    ApartDiffer(SIGNED_SIGNATURE_PROPERTIES, "", SIGNING_TIME);
    ChildHas(inner, 0, part);
    ApartAt(SIGNED_PROPERTIES, SIGNING_TIME, 10);
    ApartDiffer(SIGNED_PROPERTIES, whole.attributes, SIGNING_TIME);
    ChildHas(whole, 0, part);
    HasMeans(whole, part);
  }

  // ---- reading the block ----

  lemma {:induction false} BlockIsWellFormed(parts: BlockParts)
    ensures WellFormed(UblExtensions(parts))
  {
    hide DsSignature, Extension;
    ElementIsContent(Extension(DsSignature(parts)));
    TagsArePlain();
  }

  lemma {:induction false} PlainTag(e: Element)
    requires !e.Empty?
    ensures Plain(Opens(e)) && |Flatten(e)| > 1 && Flatten(e)[0] == Tag(Opens(e))
  {
    FirstTag(e);
  }

  /** A verifier finds the digest of the invoice under the reference to the invoice. */
  lemma {:induction false} BlockSaysInvoiceDigest(parts: BlockParts)
    ensures TextAfter(BuildUblExtensions(parts), DataReference(), "ds:DigestValue") == parts.invoiceHash
  {
    hide UblExtensions, DataReferenceElement, DataReference, Contains, Flatten, TextAfter, Value;
    var part := DataReferenceElement(parts.invoiceHash);
    BlockIsWellFormed(parts);
    BlockHasData(parts);
    DataReferenceHas(parts.invoiceHash);
    HasMeans(part, Value(DIGEST_VALUE, parts.invoiceHash));
    ValueOpens(DIGEST_VALUE, parts.invoiceHash);
    DataShape(parts.invoiceHash);
    PlainTag(part);
    TextInPart(UblExtensions(parts), Flatten(part), DIGEST_VALUE, parts.invoiceHash, "/" + DIGEST_VALUE);
  }

  lemma {:induction false} DataShape(invoiceHash: Markup)
    ensures var e := DataReferenceElement(invoiceHash); e.Nest? && Opens(e) != DIGEST_VALUE
  {
    hide Both;
    DigestNames();
    ApartDiffer(REFERENCE, Both(DATA_ID, DATA_URI), DIGEST_VALUE);
  }

  /** And the digest of the signed properties under the reference to those. */
  lemma {:induction false} BlockSaysPropertiesDigest(parts: BlockParts)
    ensures TextAfter(BuildUblExtensions(parts), PropertiesReference(), "ds:DigestValue") == parts.propertiesHash
  {
    hide UblExtensions, PropertiesReferenceElement, PropertiesReference, Contains, Flatten, TextAfter, Value;
    var part := PropertiesReferenceElement(parts.propertiesHash);
    BlockIsWellFormed(parts);
    BlockHasProperties(parts);
    PropertiesReferenceHas(parts.propertiesHash);
    HasMeans(part, Value(DIGEST_VALUE, parts.propertiesHash));
    ValueOpens(DIGEST_VALUE, parts.propertiesHash);
    PropertiesShape(parts.propertiesHash);
    PlainTag(part);
    TextInPart(UblExtensions(parts), Flatten(part), DIGEST_VALUE, parts.propertiesHash, "/" + DIGEST_VALUE);
  }

  lemma {:induction false} PropertiesShape(propertiesHash: Markup)
    ensures var e := PropertiesReferenceElement(propertiesHash); e.Nest? && Opens(e) != DIGEST_VALUE
  {
    hide Both;
    DigestNames();
    ApartDiffer(REFERENCE, Both(PROPERTIES_TYPE, PROPERTIES_URI), DIGEST_VALUE);
  }

  lemma {:induction false} BlockSaysSignature(parts: BlockParts)
    ensures TextOf(BuildUblExtensions(parts), "ds:SignatureValue", 0) == parts.signatureValue
    ensures TextOf(BuildUblExtensions(parts), "ds:X509Certificate", 0) == parts.signer.certificate
  {
    hide UblExtensions, Contains, Flatten, TextOf, Value;
    BlockIsWellFormed(parts);
    BlockHasSignatureValue(parts);
    BlockHasCertificate(parts);
    ValueOpens(SIGNATURE_VALUE, parts.signatureValue);
    ValueOpens(X509_CERTIFICATE, parts.signer.certificate);
    EmbeddedText(UblExtensions(parts), SIGNATURE_VALUE, parts.signatureValue, "/" + SIGNATURE_VALUE);
    EmbeddedText(UblExtensions(parts), X509_CERTIFICATE, parts.signer.certificate, "/" + X509_CERTIFICATE);
  }

  /** The signed properties stand in the block exactly as they were hashed. */
  lemma {:induction false} BlockSaysProperties(parts: BlockParts)
    ensures var block := BuildUblExtensions(parts);
            Cut(block, Match(block, "<" + PropertiesTagText() + ">", "<" + ("/" + SIGNED_PROPERTIES) + ">"))
            == SignedPropertiesXml(parts.signer)
  {
    hide UblExtensions, Contains, SignedProperties, Cut, Match, Flatten, Print, PropertiesTagText, Lacks, WellFormed;
    var part := SignedProperties(parts.signer);
    BlockIsWellFormed(parts);
    BlockHasSignedProperties(parts);
    SignedPropertiesShape(parts.signer);
    PropertiesOpen(parts.signer);
    FirstTag(part);
    PlainTag(part);
    ClosesOnce(parts.signer);
    EmbeddedPiece(UblExtensions(parts), Flatten(part), "/" + SIGNED_PROPERTIES);
  }

  lemma {:induction false} PropertiesOpen(signer: Signer)
    ensures Opens(SignedProperties(signer)) == PropertiesTagText()
  {
    hide Attribute;
    PropertiesTree(signer);
  }

  /** No element in it closes the signed properties early. */
  lemma {:induction false} ClosesOnce(signer: Signer)
    ensures var ts := Flatten(SignedProperties(signer));
            |ts| > 1 && Lacks(ts[1..|ts| - 1], "/" + SIGNED_PROPERTIES)
    ensures Plain("/" + SIGNED_PROPERTIES)
  {
    hide Value, CertElement, Both, Lacks, Within;
    PropertiesTree(signer);
    var e := SignedProperties(signer);
    var ts := Flatten(e);
    assert ts == [Tag(Opens(e))] + FlattenAll(e.children) + [Tag("/" + e.name)];
    assert ts[1..|ts| - 1] == FlattenAll(e.children);
    ChildrenLackClosing(signer);
  }

  /** No tag of the element closes one of this name. */
  predicate Unclosed(e: Element, name: string)
    decreases e, 0
  {
    match e
    case Holding(n, _, _) => n != name && n[0] != '/'
    case Empty(n, _) => n[0] != '/'
    case Nest(n, _, children) => n != name && n[0] != '/' && AllUnclosed(children, name)
  }

  predicate AllUnclosed(es: seq<Element>, name: string)
    decreases es, 1
  {
    es == [] || (Unclosed(es[0], name) && AllUnclosed(es[1..], name))
  }

  lemma {:induction false} UnclosedLacks(e: Element, name: string)
    requires Unclosed(e, name)
    ensures Lacks(Flatten(e), "/" + name)
    decreases e, 0
  {
    assert ("/" + name)[0] == '/';
    assert (e.name + e.attributes)[0] == e.name[0] && (e.name + e.attributes + "/")[0] == e.name[0];
    assert ("/" + e.name)[1..] == e.name && ("/" + name)[1..] == name;
    if e.Nest? {
      AllUnclosedLack(e.children, name);
    }
  }

  lemma {:induction false} AllUnclosedLack(es: seq<Element>, name: string)
    requires AllUnclosed(es, name)
    ensures Lacks(FlattenAll(es), "/" + name)
    decreases es, 1
  {
    if es != [] {
      UnclosedLacks(es[0], name);
      AllUnclosedLack(es[1..], name);
    }
  }

  lemma {:induction false} TwoUnclosed(a: Element, b: Element, name: string)
    requires Unclosed(a, name) && Unclosed(b, name)
    ensures AllUnclosed([a, b], name) && AllUnclosed([a], name)
  {
    assert [a, b][1..] == [b] && [b][1..] == [] && [a][1..] == [];
  }

  lemma {:induction false} InnerNamesDiffer()
    ensures SIGNED_PROPERTIES != SIGNED_SIGNATURE_PROPERTIES && SIGNED_PROPERTIES != SIGNING_TIME
    ensures SIGNED_PROPERTIES != SIGNING_CERTIFICATE && SIGNED_PROPERTIES != CERT && SIGNED_PROPERTIES != CERT_DIGEST
    ensures SIGNED_PROPERTIES != ISSUER_SERIAL
  {
    assert |SIGNED_PROPERTIES| == 22 && |SIGNED_SIGNATURE_PROPERTIES| == 31 && |SIGNING_TIME| == 17;
    assert |SIGNING_CERTIFICATE| == 24 && |CERT| == 10 && |CERT_DIGEST| == 16 && |ISSUER_SERIAL| == 18;
  }

  lemma {:induction false} CertUnclosed(signer: Signer)
    ensures Unclosed(CertElement(signer), SIGNED_PROPERTIES)
  {
    hide EscapedName;
    InnerNamesDiffer();
    InnerNames();
    FirstLetters();
    PropertiesNames();
    TwoUnclosed(Algorithm(DIGEST_METHOD, SHA256), Value(DIGEST_VALUE, signer.certDigest), SIGNED_PROPERTIES);
    TwoUnclosed(Value(X509_ISSUER_NAME, EscapedName(signer.issuerName)),
                Value(X509_SERIAL_NUMBER, signer.serialNumber), SIGNED_PROPERTIES);
    TwoUnclosed(CertElement(signer).children[0], CertElement(signer).children[1], SIGNED_PROPERTIES);
  }

  lemma {:induction false} ChildrenLackClosing(signer: Signer)
    ensures Lacks(FlattenAll(SignedProperties(signer).children), "/" + SIGNED_PROPERTIES)
    ensures Plain("/" + SIGNED_PROPERTIES)
  {
    hide CertElement, Both;
    InnerNamesDiffer();
    InnerNames();
    PropertiesTree(signer);
    CertUnclosed(signer);
    var time, cert := Value(SIGNING_TIME, signer.signingTime), CertElement(signer);
    TwoUnclosed(cert, cert, SIGNED_PROPERTIES);
    var certificate := Within(SIGNING_CERTIFICATE, [cert]);
    TwoUnclosed(time, certificate, SIGNED_PROPERTIES);
    var inner := Within(SIGNED_SIGNATURE_PROPERTIES, [time, certificate]);
    TwoUnclosed(inner, inner, SIGNED_PROPERTIES);
    AllUnclosedLack([inner], SIGNED_PROPERTIES);
  }

  lemma {:induction false} PropertiesAreWellFormed(signer: Signer)
    ensures WellFormed(Flatten(SignedProperties(signer)))
  {
    hide SignedProperties;
    ElementIsContent(SignedProperties(signer));
  }

  /** The signed properties say the certificate's facts and the time. */
  lemma {:induction false} PropertiesSay(signer: Signer)
    ensures var xml := SignedPropertiesXml(signer);
            && TextOf(xml, "xades:SigningTime", 0) == signer.signingTime
            && TextOf(xml, "ds:DigestValue", 0) == signer.certDigest
            && TextOf(xml, "ds:X509IssuerName", 0) == EscapedName(signer.issuerName)
            && TextOf(xml, "ds:X509SerialNumber", 0) == signer.serialNumber
  {
    hide SignedProperties, Contains, Flatten, TextOf, Value, EscapedName, CertElement, Has;
    var ts := Flatten(SignedProperties(signer));
    InnerNames();
    DigestNames();
    PropertiesAreWellFormed(signer);
    PropertiesHaveTime(signer);
    DigestInCert(signer);
    IssuerInCert(signer);
    ValueName(DIGEST_VALUE, signer.certDigest);
    ValueName(X509_ISSUER_NAME, EscapedName(signer.issuerName));
    ValueName(X509_SERIAL_NUMBER, signer.serialNumber);
    PropertiesHave(signer, Value(DIGEST_VALUE, signer.certDigest));
    PropertiesHave(signer, Value(X509_ISSUER_NAME, EscapedName(signer.issuerName)));
    PropertiesHave(signer, Value(X509_SERIAL_NUMBER, signer.serialNumber));
    ReadValue(ts, SIGNING_TIME, signer.signingTime);
    ReadValue(ts, DIGEST_VALUE, signer.certDigest);
    ReadValue(ts, X509_ISSUER_NAME, EscapedName(signer.issuerName));
    ReadValue(ts, X509_SERIAL_NUMBER, signer.serialNumber);
  }

  lemma {:induction false} ReadValue(ts: seq<Token>, name: Name, text: Markup)
    requires WellFormed(ts) && Contains(ts, Flatten(Value(name, text)))
    ensures TextOf(Print(ts), name, 0) == text
  {
    hide WellFormed, Contains, TextOf, Value, Flatten;
    ValueOpens(name, text);
    EmbeddedText(ts, name, text, "/" + name);
  }

  // ---- reading the signed invoice ----

  lemma {:induction false} PieceFound(s: string, front: string, block: string, body: string, open: string,
                                      close: string)
    requires s == front + (block + body) && Find(s, open, 0) == |front|
    requires |open| + |close| <= |block| && Find(block, close, |open|) == |block| - |close|
    ensures Cut(s, Match(s, open, close)) == block
  {
    MatchIsBlock(s, front, block, body, open, close);
    assert s[|front|..|front| + |block|] == block;
  }

  /** Each spliced block is found whole by its markers. */
  lemma {:induction false} BlocksAreFound(head: string, qr: string, ext: string, body: string)
    requires head != "" && head[|head| - 1] == '>' && Find(head, ExtOpen(), 0) == -1 && Find(head, QrOpen(), 0) == -1
    requires QrBlock(qr) && ExtensionsBlock(ext)
    ensures ExtensionsIn(head + qr + (ext + body)) == ext && QrReferenceIn(head + qr + (ext + body)) == qr
  {
    hide Find, Match, Cut;
    var s := head + qr + (ext + body);
    QrBlockEnds(qr);
    forall j: nat | j < |head + qr|
      ensures !At(s, ExtOpen(), j)
    {
      NoExtensionsBefore(head, qr, ext + body, j);
    }
    FirstOpen(s, head + qr, ext, body, ExtOpen());
    PieceFound(s, head + qr, ext, body, ExtOpen(), ExtClose());
    var rest := ext + body;
    assert s == head + (qr + rest);
    AtInside(qr, rest, "<cac", 0);
    forall j: nat | j < |head|
      ensures !At(s, QrOpen(), j)
    {
      NoQrBefore(head, qr + rest, j);
    }
    FirstOpen(s, head, qr, rest, QrOpen());
    PieceFound(s, head, qr, rest, QrOpen(), RefClose());
  }

  lemma {:induction false} SignedBlocks(xml: string, ext: string, qr: string)
    requires Signable(xml) && ExtensionsBlock(ext) && QrBlock(qr)
    ensures Sign(xml, ext, qr).Some?
    ensures ExtensionsIn(Sign(xml, ext, qr).value) == ext && QrReferenceIn(Sign(xml, ext, qr).value) == qr
  {
    hide ExtensionsIn, QrReferenceIn, ExtensionsBlock, QrBlock, Find;
    RootEndInside(xml);
    var head, body := xml[..RootEnd(xml).value], xml[RootEnd(xml).value..];
    assert head + body == xml;
    FindInFront(head, body, ExtOpen());
    FindInFront(head, body, QrOpen());
    SplicesAt(head, body, ext, qr);
    BlocksAreFound(head, qr, ext, body);
  }

  lemma {:induction false} QrReferenceSays(qr: Markup)
    ensures TextOf(BuildQrReference(qr), HashTag(), 0) == qr
  {
    hide TextOf, Attribute;
    var ts := QrReference(qr);
    var front, next := ts[..5], "/" + EMBEDDED_DOCUMENT_BINARY_OBJECT;
    QrReferenceTags(qr);
    HashTagIsLong();
    assert |REF_TAG| == 31 && |ID| == 6 && |ATTACHMENT| == 14;
    assert ts == front + ([Tag(HashTag()), Chars(qr), Tag(next)] + ts[8..]);
    assert front[0..] == front && ts[..0] == [] && Print([]) == "";
    ReadText(ts, front, 0, HashTag(), qr, next, ts[8..]);
  }

  /** Whatever document is signed: a verifier finds in the signed text the digest of the invoice and that
      of the signed properties, each under its own reference, the signature and certificate, the signed
      properties as they were hashed, and the QR code. */
  lemma {:induction false} SignedTextSays(xml: string, parts: BlockParts, qr: Markup)
    requires Signable(xml)
    ensures Sign(xml, BuildUblExtensions(parts), BuildQrReference(qr)).Some?
    ensures var signed := Sign(xml, BuildUblExtensions(parts), BuildQrReference(qr)).value;
            && InvoiceDigestIn(signed) == parts.invoiceHash
            && PropertiesDigestIn(signed) == parts.propertiesHash
            && SignatureValueIn(signed) == parts.signatureValue
            && CertificateIn(signed) == parts.signer.certificate
            && PropertiesIn(signed) == SignedPropertiesXml(parts.signer)
            && QrCodeIn(signed) == qr
  {
    hide Signable, UblExtensions, QrReference, BuildUblExtensions, BuildQrReference, ExtensionsIn, QrReferenceIn,
         TextAfter, TextOf, Cut, Match, SignedPropertiesXml, DataReference, PropertiesReference, PropertiesTagText,
         HashTag, Sign;
    ExtensionsAreABlock(parts);
    QrReferenceIsABlock(qr);
    SignedBlocks(xml, BuildUblExtensions(parts), BuildQrReference(qr));
    BlockSaysInvoiceDigest(parts);
    BlockSaysPropertiesDigest(parts);
    BlockSaysSignature(parts);
    BlockSaysProperties(parts);
    QrReferenceSays(qr);
  }
}
