/** The two blocks of `zatca-sign.ts`: the extensions element with its XAdES signature, and the QR
    document reference. Both are built without white space between elements. */
module SignatureBlock {
  import opened Text
  import opened Escape
  import opened Signing
  import opened UblInvoice

  const UBL_EXTENSION: Name := "ext:UBLExtension"
  const EXTENSION_URI: Name := "ext:ExtensionURI"
  const EXTENSION_CONTENT: Name := "ext:ExtensionContent"
  const DOCUMENT_SIGNATURES: Name := "sig:UBLDocumentSignatures"
  const SIGNATURE_INFORMATION: Name := "sac:SignatureInformation"
  const REFERENCED_SIGNATURE_ID: Name := "sbc:ReferencedSignatureID"
  const SIGNATURE: Name := "ds:Signature"
  const SIGNED_INFO: Name := "ds:SignedInfo"
  const CANONICALIZATION_METHOD: Name := "ds:CanonicalizationMethod"
  const SIGNATURE_METHOD: Name := "ds:SignatureMethod"
  const REFERENCE: Name := "ds:Reference"
  const TRANSFORMS: Name := "ds:Transforms"
  const TRANSFORM: Name := "ds:Transform"
  const DIGEST_METHOD: Name := "ds:DigestMethod"
  const DIGEST_VALUE: Name := "ds:DigestValue"
  const SIGNATURE_VALUE: Name := "ds:SignatureValue"
  const KEY_INFO: Name := "ds:KeyInfo"
  const X509_DATA: Name := "ds:X509Data"
  const X509_CERTIFICATE: Name := "ds:X509Certificate"
  const X509_ISSUER_NAME: Name := "ds:X509IssuerName"
  const X509_SERIAL_NUMBER: Name := "ds:X509SerialNumber"
  const OBJECT: Name := "ds:Object"
  const QUALIFYING_PROPERTIES: Name := "xades:QualifyingProperties"
  const SIGNED_PROPERTIES: Name := "xades:SignedProperties"
  const SIGNED_SIGNATURE_PROPERTIES: Name := "xades:SignedSignatureProperties"
  const SIGNING_TIME: Name := "xades:SigningTime"
  const SIGNING_CERTIFICATE: Name := "xades:SigningCertificate"
  const CERT: Name := "xades:Cert"
  const CERT_DIGEST: Name := "xades:CertDigest"
  const ISSUER_SERIAL: Name := "xades:IssuerSerial"

  const W3: Markup := "http://www.w3.org/"
  const XADES_NS: Markup := Join(["http://uri.etsi.org/", "01903/v1.3.2#"])
  const XMLDSIG: Markup := "2000/09/xmldsig#"
  const DS_NS: Markup := Join([W3, XMLDSIG])
  const C14N11: Markup := Join([W3, "2006/12/xml-c14n11"])
  const SHA256: Markup := Join([W3, "2001/04/xmlenc#sha256"])
  const ECDSA_SHA256: Markup := Join([W3, "2001/04/xmldsig-more", "#ecdsa-sha256"])
  const SIGNATURE_PROPERTIES: Markup := Join([DS_NS, "SignatureProperties"])
  const UBL_NAMES: Markup := "urn:oasis:names:"
  const UBL_SPECIFICATION: Markup := Join([UBL_NAMES, "specification:ubl:"])
  const SIGNED_PROPERTIES_ID: Markup := "xadesSignedProperties"
  const SIGNATURE_ID: Markup := "signature"

  /** A piece of the block: an element holding text, one without content, or one holding elements. */
  datatype Element =
    | Holding(name: Name, attributes: Attributes, text: Markup)
    | Empty(name: Name, attributes: Attributes)
    | Nest(name: Name, attributes: Attributes, children: seq<Element>)

  function Flatten(e: Element): seq<Token>
    decreases e, 0
  {
    match e
    case Holding(name, attributes, text) => [Tag(name + attributes), Chars(text), Tag("/" + name)]
    case Empty(name, attributes) => [Tag(name + attributes + "/")]
    case Nest(name, attributes, children) =>
      [Tag(name + attributes)] + FlattenAll(children) + [Tag("/" + name)]
  }

  function FlattenAll(es: seq<Element>): seq<Token>
    decreases es, 1
  {
    if es == [] then [] else Flatten(es[0]) + FlattenAll(es[1..])
  }

  function Both(a: Attributes, b: Attributes): Attributes {
    a + b
  }

  const XADES_NAMESPACE: Attributes := Attribute("xmlns:xades", XADES_NS)
  const DS_NAMESPACE: Attributes := Attribute("xmlns:ds", DS_NS)
  const PROPERTIES_ID: Attributes := Attribute("Id", SIGNED_PROPERTIES_ID)
  const PROPERTIES_URI: Attributes := Attribute("URI", Join(["#", SIGNED_PROPERTIES_ID]))
  const PROPERTIES_TYPE: Attributes := Attribute("Type", SIGNATURE_PROPERTIES)
  const OWN_ID: Attributes := Attribute("Id", SIGNATURE_ID)
  const OWN_TARGET: Attributes := Attribute("Target", Join(["#", SIGNATURE_ID]))
  const DATA_ID: Attributes := Attribute("Id", "invoiceSignedData")
  const DATA_URI: Attributes := Attribute("URI", "")

  function Algorithm(name: Name, uri: Markup): Element {
    Empty(name, Attribute("Algorithm", uri))
  }

  function Value(name: Name, text: Markup): Element {
    Holding(name, "", text)
  }

  function Within(name: Name, children: seq<Element>): Element {
    Nest(name, "", children)
  }

  /** What the certificate and the clock contribute. The issuer's name is the only free text. */
  datatype Signer = Signer(certDigest: Markup, signingTime: Markup, issuerName: string,
                           serialNumber: Markup, certificate: Markup)

  function EscapedName(text: string): Markup {
    EscQuotedIsSafe(text);
    EscQuoted(text)
  }

  function SignedProperties(signer: Signer): Element {
    Nest(SIGNED_PROPERTIES, Both(XADES_NAMESPACE, Both(DS_NAMESPACE, PROPERTIES_ID)), [
      Within(SIGNED_SIGNATURE_PROPERTIES, [
        Value(SIGNING_TIME, signer.signingTime),
        Within(SIGNING_CERTIFICATE, [Within(CERT, [
          Within(CERT_DIGEST, [Algorithm(DIGEST_METHOD, SHA256), Value(DIGEST_VALUE, signer.certDigest)]),
          Within(ISSUER_SERIAL, [
            Value(X509_ISSUER_NAME, EscapedName(signer.issuerName)),
            Value(X509_SERIAL_NUMBER, signer.serialNumber)])])])])])
  }

  /** buildSignedPropertiesXml */
  function SignedPropertiesXml(signer: Signer): string {
    Print(Flatten(SignedProperties(signer)))
  }

  /** Everything that varies in a block. */
  datatype BlockParts = BlockParts(invoiceHash: Markup, propertiesHash: Markup, signatureValue: Markup, signer: Signer)

  function SignedInfo(invoiceHash: Markup, propertiesHash: Markup): Element {
    Within(SIGNED_INFO, [
      Algorithm(CANONICALIZATION_METHOD, C14N11),
      Algorithm(SIGNATURE_METHOD, ECDSA_SHA256),
      Nest(REFERENCE, Both(DATA_ID, DATA_URI), [
        Within(TRANSFORMS, [Algorithm(TRANSFORM, C14N11)]),
        Algorithm(DIGEST_METHOD, SHA256),
        Value(DIGEST_VALUE, invoiceHash)]),
      Nest(REFERENCE, Both(PROPERTIES_TYPE, PROPERTIES_URI), [
        Algorithm(DIGEST_METHOD, SHA256),
        Value(DIGEST_VALUE, propertiesHash)])])
  }

  function DsSignature(parts: BlockParts): Element {
    hide SignedInfo, SignedProperties;
    Nest(SIGNATURE, Both(DS_NAMESPACE, OWN_ID), [
      SignedInfo(parts.invoiceHash, parts.propertiesHash),
      Value(SIGNATURE_VALUE, parts.signatureValue),
      Within(KEY_INFO, [Within(X509_DATA, [Value(X509_CERTIFICATE, parts.signer.certificate)])]),
      Within(OBJECT, [
        Nest(QUALIFYING_PROPERTIES, Both(XADES_NAMESPACE, OWN_TARGET), [SignedProperties(parts.signer)])])])
  }

  function ComponentSchema(name: Markup): Markup {
    Join([UBL_SPECIFICATION, "schema:xsd:", name])
  }

  const SIG_SCHEMA: Markup := "CommonSignatureComponents-2"
  const SAC_SCHEMA: Markup := "SignatureAggregateComponents-2"
  const SBC_SCHEMA: Markup := "SignatureBasicComponents-2"

  const SIG_NAMESPACE: Attributes := Attribute("xmlns:sig", ComponentSchema(SIG_SCHEMA))
  const SAC_NAMESPACE: Attributes := Attribute("xmlns:sac", ComponentSchema(SAC_SCHEMA))
  const SBC_NAMESPACE: Attributes := Attribute("xmlns:sbc", ComponentSchema(SBC_SCHEMA))

  function Extension(signature: Element): Element {
    Within(UBL_EXTENSION, [
      Value(EXTENSION_URI, Join([UBL_SPECIFICATION, "dsig:enveloped:xades"])),
      Within(EXTENSION_CONTENT, [
        Nest(DOCUMENT_SIGNATURES, Both(SIG_NAMESPACE, Both(SAC_NAMESPACE, SBC_NAMESPACE)), [
          Within(SIGNATURE_INFORMATION, [
            Value(ID, Join([UBL_SPECIFICATION, "signature:1"])),
            Value(REFERENCED_SIGNATURE_ID, Join([UBL_SPECIFICATION, "signature:Invoice"])),
            signature])])])])
  }

  function Around(inner: seq<Token>): seq<Token> {
    [Tag(EXT_TAG)] + inner + [Tag("/" + EXT_TAG)]
  }

  function UblExtensions(parts: BlockParts): seq<Token> {
    Around(Flatten(Extension(DsSignature(parts))))
  }

  function BuildUblExtensions(parts: BlockParts): string {
    Print(UblExtensions(parts))
  }

  function QrReference(qr: Markup): seq<Token> {
    [Tag(REF_TAG), Tag(ID), Chars("QR"), Tag("/" + ID), Tag(ATTACHMENT),
     Tag(EMBEDDED_DOCUMENT_BINARY_OBJECT + Attribute("mimeCode", "text/plain")), Chars(qr),
     Tag("/" + EMBEDDED_DOCUMENT_BINARY_OBJECT), Tag("/" + ATTACHMENT), Tag("/" + REF_TAG)]
  }

  /** buildQrAdditionalDocumentReference */
  function BuildQrReference(qr: Markup): string {
    Print(QrReference(qr))
  }
}
