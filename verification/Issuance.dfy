/** Concurrent issuance of tax invoices (`zatca.service.ts`). */
module Issuance {
  import opened Basics
  import opened Decimal
  import opened Text
  import opened Signing
  import opened UblInvoice
  import opened SignatureBlock
  import opened SignedInvoice
  import opened SignatureReading
  import opened EmbeddedFields
  import opened Audit

  // Any number of `issue` calls, each a transaction that takes its tenant's advisory lock, reads the end of
  // the chain, builds and hashes its document, and commits or aborts; the archive is written after the
  // commit.

  datatype Slot = Slot(icv: nat, previousHash: string, invoiceHash: string)

  datatype Invoice = Invoice(tenant: nat, number: string, slot: Option<Slot>, archive: Option<string>)

  datatype Phase =
    | Waiting
    | Locked
    | Allocated(icv: nat, previousHash: string)
    | Written(slot: Slot, xml: string)
    | Committed(done: string)

  datatype Call = Call(invoice: nat, phase: Phase)

  /** `published` is history: the order in which a tenant's invoices were committed. No step reads it. */
  datatype State = State(invoices: map<nat, Invoice>, open: map<nat, Call>, published: map<nat, seq<nat>>)

  /** What a certificate adds: its facts, the ECDSA value and the Base64 QR payload. */
  datatype Stamp = Stamp(signer: Signer, signatureValue: Markup, qr: Markup)

  /** The library functions, the template, and the hash of a tenant's lock name, which may collide. */
  datatype World = World(crypto: Crypto, render: Input -> string, lockKey: nat -> int)

  datatype Step =
    | Create(invoice: nat, tenant: nat, number: string)
    | Begin(call: nat, invoice: nat)
    | Lock(call: nat)
    | Allocate(call: nat, last: Option<nat>)
    | Write(call: nat, facts: Input, stamp: Option<Stamp>)
    | Commit(call: nat)
    | Abort(call: nat)
    | Store(call: nat)
    | StoreFails(call: nat)

  const START := State(map[], map[], map[])

  // ---- the steps ----

  predicate Pending(p: Phase) {
    !p.Committed?
  }

  predicate Holding(p: Phase) {
    p.Locked? || p.Allocated? || p.Written?
  }

  function Facts(facts: Input, icv: nat, previousHash: string): Input {
    facts.(icv := icv, previousHash := previousHash)
  }

  /** signInvoiceXml; None when the library throws or there is no root. */
  function SignInvoiceXml(c: Crypto, xml: string, invoiceHash: Markup, stamp: Stamp): Option<string> {
    match c.canonicalize(SignedPropertiesXml(stamp.signer))
    case None => None
    case Some(properties) =>
      var parts := BlockParts(invoiceHash, c.hash(properties), stamp.signatureValue, stamp.signer);
      Sign(xml, BuildUblExtensions(parts), BuildQrReference(stamp.qr))
  }

  /** The archived document: the canonical form, or the signed one when there is a certificate. */
  function Final(c: Crypto, xml: string, canonical: string, stamp: Option<Stamp>): Option<string> {
    match stamp
    case None => Some(canonical)
    case Some(st) => SignInvoiceXml(c, xml, c.hash(canonical), st)
  }

  /** The phase after building, hashing and signing, unless the library throws. */
  function Build(w: World, inp: Input, stamp: Option<Stamp>): Option<Phase> {
    var xml := w.render(inp);
    match w.crypto.canonicalize(xml)
    case None => None
    case Some(canonical) =>
      match Final(w.crypto, xml, canonical, stamp)
      case None => None
      case Some(final) => Some(Written(Slot(inp.icv, inp.previousHash, w.crypto.hash(canonical)), final))
  }

  /** The document is built from the invoice's facts and the allocated place. */
  function WrittenPhase(w: World, p: Phase, facts: Input, stamp: Option<Stamp>): Option<Phase>
    requires p.Allocated?
  {
    var inp := Facts(facts, p.icv, p.previousHash);
    if ValidInput(inp) then Build(w, inp, stamp) else None
  }

  predicate Active(s: State, call: nat) {
    call in s.open && s.open[call].invoice in s.invoices
  }

  predicate HeldBy(w: World, s: State, key: int, call: nat) {
    Active(s, call) && Holding(s.open[call].phase)
    && w.lockKey(s.invoices[s.open[call].invoice].tenant) == key
  }

  predicate Of(invoices: map<nat, Invoice>, tenant: nat, i: nat) {
    i in invoices && invoices[i].tenant == tenant && invoices[i].slot.Some?
  }

  /** ORDER BY icv DESC LIMIT 1 over the tenant's issued invoices. */
  predicate IsLatest(invoices: map<nat, Invoice>, tenant: nat, last: Option<nat>) {
    match last
    case None => forall i :: i in invoices ==> !Of(invoices, tenant, i)
    case Some(l) =>
      Of(invoices, tenant, l)
      && forall i :: i in invoices && Of(invoices, tenant, i) ==>
           invoices[i].slot.value.icv <= invoices[l].slot.value.icv
  }

  /** Whether a step can be taken. The test for an invoice already issued is made at Begin, outside
      the lock. */
  ghost predicate Enabled(w: World, s: State, step: Step) {
    match step
    case Create(i, _, _) => i !in s.invoices
    case Begin(call, i) => call !in s.open && i in s.invoices && s.invoices[i].slot.None?
    case Lock(call) =>
      && Active(s, call) && s.open[call].phase.Waiting?
      && forall u :: u in s.open ==> !HeldBy(w, s, w.lockKey(s.invoices[s.open[call].invoice].tenant), u)
    case Allocate(call, last) =>
      && Active(s, call) && s.open[call].phase.Locked?
      && IsLatest(s.invoices, s.invoices[s.open[call].invoice].tenant, last)
    case Write(call, facts, stamp) =>
      && Active(s, call) && s.open[call].phase.Allocated?
      && WrittenPhase(w, s.open[call].phase, facts, stamp).Some?
    case Commit(call) => Active(s, call) && s.open[call].phase.Written?
    case Abort(call) => Active(s, call) && Pending(s.open[call].phase)
    case Store(call) => Active(s, call) && s.open[call].phase.Committed?
    case StoreFails(call) => Active(s, call) && s.open[call].phase.Committed?
  }

  function Published(s: State, tenant: nat): seq<nat> {
    if tenant in s.published then s.published[tenant] else []
  }

  function InvoiceOf(s: State, call: nat): Invoice
    requires Active(s, call)
  {
    s.invoices[s.open[call].invoice]
  }

  function Moved(s: State, call: nat, phase: Phase): State
    requires call in s.open
  {
    s.(open := s.open[call := s.open[call].(phase := phase)])
  }

  function Allocation(s: State, last: Option<nat>): Phase
    requires last.Some? ==> last.value in s.invoices && s.invoices[last.value].slot.Some?
  {
    match last
    case None => Allocated(1, GENESIS_PIH)
    case Some(l) => Allocated(s.invoices[l].slot.value.icv + 1, s.invoices[l].slot.value.invoiceHash)
  }

  /** The update of the invoice row: it overwrites whatever the row held. */
  function Publish(s: State, call: nat): State
    requires Active(s, call) && s.open[call].phase.Written?
  {
    var i, p, inv := s.open[call].invoice, s.open[call].phase, InvoiceOf(s, call);
    State(s.invoices[i := inv.(slot := Some(p.slot))],
          s.open[call := Call(i, Committed(p.xml))],
          s.published[inv.tenant := Published(s, inv.tenant) + [i]])
  }

  function Archived(s: State, call: nat): State
    requires Active(s, call) && s.open[call].phase.Committed?
  {
    var i := s.open[call].invoice;
    s.(invoices := s.invoices[i := s.invoices[i].(archive := Some(s.open[call].phase.done))], open := s.open - {call})
  }

  ghost function Apply(w: World, s: State, step: Step): State {
    if !Enabled(w, s, step) then s
    else
      match step
      case Create(i, tenant, number) => s.(invoices := s.invoices[i := Invoice(tenant, number, None, None)])
      case Begin(call, i) => s.(open := s.open[call := Call(i, Waiting)])
      case Lock(call) => Moved(s, call, Locked)
      case Allocate(call, last) => Moved(s, call, Allocation(s, last))
      case Write(call, facts, stamp) =>
        Moved(s, call, WrittenPhase(w, s.open[call].phase, facts, stamp).value)
      case Commit(call) => Publish(s, call)
      case Abort(call) => s.(open := s.open - {call})
      case Store(call) =>
        Archived(s, call)
      case StoreFails(call) => s.(open := s.open - {call})
  }

  ghost function Run(w: World, s: State, steps: seq<Step>): State {
    if steps == [] then s else Apply(w, Run(w, s, steps[..|steps| - 1]), steps[|steps| - 1])
  }

  /** A commit finds its row as the test before the transaction saw it: not yet issued. */
  ghost predicate FreshCommit(w: World, s: State, step: Step) {
    step.Commit? && Enabled(w, s, step) ==> InvoiceOf(s, step.call).slot.None?
  }

  ghost predicate NeverReissues(w: World, steps: seq<Step>) {
    forall n: nat :: n < |steps| ==> FreshCommit(w, Run(w, START, steps[..n]), steps[n])
  }

  /** No two calls under way are for the same invoice. */
  ghost predicate Separate(w: World, s: State, step: Step) {
    step.Begin? ==> forall u :: u in s.open && Pending(s.open[u].phase) ==> s.open[u].invoice != step.invoice
  }

  ghost predicate Disciplined(w: World, steps: seq<Step>) {
    forall n: nat :: n < |steps| ==> Separate(w, Run(w, START, steps[..n]), steps[n])
  }

  // ---- what a document is trusted for ----

  /** The document can be signed; its canonical form is stable, has no marker in it and embeds the
      invoice's place. */
  ghost predicate FaithfulOn(w: World, inp: Input) {
    var xml := w.render(inp);
    && Signable(xml)
    && w.crypto.canonicalize(xml).Some?
    && var canonical := w.crypto.canonicalize(xml).value;
       && w.crypto.canonicalize(canonical) == Some(canonical)
       && Find(canonical, ExtOpen(), 0) == -1 && Find(canonical, QrOpen(), 0) == -1
       && CounterIn(canonical) == Digits(inp.icv)
       && PreviousHashIn(canonical) == inp.previousHash
  }

  ghost predicate Faithful(w: World) {
    forall inp: Input :: ValidInput(inp) ==> FaithfulOn(w, inp)
  }

  /** Canonicalisation accepts the document, is stable on its result, puts no marker into it and
      keeps the texts of its elements. */
  ghost predicate Canonicalizes(c: Crypto, xml: string) {
    && c.canonicalize(xml).Some?
    && var canonical := c.canonicalize(xml).value;
       && c.canonicalize(canonical) == Some(canonical)
       && Find(canonical, ExtOpen(), 0) == -1 && Find(canonical, QrOpen(), 0) == -1
       && CounterIn(canonical) == CounterIn(xml)
       && PreviousHashIn(canonical) == PreviousHashIn(xml)
  }

  /** With such a canonicalisation the invoice template is faithful, whatever the invoices say. */
  lemma {:induction false} TemplateIsFaithful(w: World)
    requires forall inp: Input :: ValidInput(inp) ==>
                                    w.render(inp) == BuildUblInvoice(inp) && Canonicalizes(w.crypto, w.render(inp))
    ensures Faithful(w)
  {
    hide Tokens;
    forall inp: Input | ValidInput(inp)
      ensures FaithfulOn(w, inp)
    {
      InvoiceIsSignable(inp);
      InvoiceEmbedsItsPlace(inp);
    }
  }

  // ---- the document of one issue ----

  /** The archived document re-hashes to the row's hash and says what the row says. */
  predicate Matches(c: Crypto, slot: Slot, xml: string) {
    && Document(c, Stored(xml)).Some?
    && var d := Document(c, Stored(xml)).value;
       && c.hash(d) == slot.invoiceHash
       && CounterIn(d) == Digits(slot.icv)
       && PreviousHashIn(d) == slot.previousHash
       && StatesItsDigests(c, slot.invoiceHash, xml)
  }

  /** A verifier of the signature finds both digests right: that of the invoice is the stored hash, and
      that of the signed properties is the hash of those that stand in the document. */
  predicate StatesItsDigests(c: Crypto, invoiceHash: string, xml: string) {
    ExtensionsIn(xml) != "" ==>
      && InvoiceDigestIn(xml) == invoiceHash
      && c.canonicalize(PropertiesIn(xml)).Some?
      && PropertiesDigestIn(xml) == c.hash(c.canonicalize(PropertiesIn(xml)).value)
  }

  lemma {:induction false} StripOfMarkerless(xml: string)
    requires Find(xml, ExtOpen(), 0) == -1 && Find(xml, QrOpen(), 0) == -1
    ensures Strip(xml) == xml && ExtensionsIn(xml) == ""
  {
  }

  lemma {:induction false} MatchesWhen(c: Crypto, slot: Slot, stripped: string, canonical: string, xml: string)
    requires Strip(xml) == stripped && c.canonicalize(stripped) == Some(canonical)
    requires c.hash(canonical) == slot.invoiceHash
    requires CounterIn(canonical) == Digits(slot.icv) && PreviousHashIn(canonical) == slot.previousHash
    requires StatesItsDigests(c, slot.invoiceHash, xml)
    ensures Matches(c, slot, xml)
  {
  }

  lemma {:induction false} SignedStripsBack(c: Crypto, xml: string, invoiceHash: Markup, stamp: Stamp)
    requires Signable(xml) && c.canonicalize(SignedPropertiesXml(stamp.signer)).Some?
    ensures SignInvoiceXml(c, xml, invoiceHash, stamp).Some?
    ensures Strip(SignInvoiceXml(c, xml, invoiceHash, stamp).value) == xml
  {
    hide UblExtensions, QrReference, SignedProperties;
    var properties := c.canonicalize(SignedPropertiesXml(stamp.signer)).value;
    var parts := BlockParts(invoiceHash, c.hash(properties), stamp.signatureValue, stamp.signer);
    ExtensionsAreABlock(parts);
    QrReferenceIsABlock(stamp.qr);
    SignableStripsBack(xml, BuildUblExtensions(parts), BuildQrReference(stamp.qr));
  }

  /** What is spliced into any signable document is what a verifier reads: the digest of the invoice and
      of the canonical signed properties, and the stamp's own values. */
  lemma {:induction false} SignedInvoiceSays(c: Crypto, xml: string, invoiceHash: Markup, stamp: Stamp)
    requires Signable(xml) && SignInvoiceXml(c, xml, invoiceHash, stamp).Some?
    ensures var signed := SignInvoiceXml(c, xml, invoiceHash, stamp).value;
            var properties := c.canonicalize(SignedPropertiesXml(stamp.signer));
            && InvoiceDigestIn(signed) == invoiceHash
            && properties.Some? && PropertiesDigestIn(signed) == c.hash(properties.value)
            && PropertiesIn(signed) == SignedPropertiesXml(stamp.signer)
            && SignatureValueIn(signed) == stamp.signatureValue
            && CertificateIn(signed) == stamp.signer.certificate
            && SigningTimeIn(signed) == stamp.signer.signingTime
            && CertificateDigestIn(signed) == stamp.signer.certDigest
            && IssuerNameIn(signed) == EscapedName(stamp.signer.issuerName)
            && SerialNumberIn(signed) == stamp.signer.serialNumber
            && QrCodeIn(signed) == stamp.qr
            && StatesItsDigests(c, invoiceHash, signed)
  {
    hide SignedProperties, UblExtensions, QrReference, Signable, InvoiceDigestIn, PropertiesDigestIn, PropertiesIn,
         SignatureValueIn, CertificateIn, QrCodeIn, SignedPropertiesXml, Sign, ExtensionsIn, TextOf;
    var properties := c.canonicalize(SignedPropertiesXml(stamp.signer)).value;
    SignedTextSays(xml, BlockParts(invoiceHash, c.hash(properties), stamp.signatureValue, stamp.signer), stamp.qr);
    PropertiesSay(stamp.signer);
  }

  /** Whether signed or not, what `issue` archives passes the re-hash and says its place. Building
      fails only when the library does not canonicalise the signed properties. */
  lemma {:induction false} IssuedDocumentMatches(w: World, inp: Input, stamp: Option<Stamp>)
    requires Faithful(w) && ValidInput(inp)
    ensures Build(w, inp, stamp).Some? <==>
            (stamp.Some? ==> w.crypto.canonicalize(SignedPropertiesXml(stamp.value.signer)).Some?)
    ensures Build(w, inp, stamp).Some? ==>
              var p := Build(w, inp, stamp).value;
              && p.Written? && p.slot.icv == inp.icv && p.slot.previousHash == inp.previousHash
              && Matches(w.crypto, p.slot, p.xml)
  {
    hide SignedProperties, UblExtensions, QrReference, StatesItsDigests;
    assert FaithfulOn(w, inp);
    var xml := w.render(inp);
    var canonical := w.crypto.canonicalize(xml).value;
    var slot := Slot(inp.icv, inp.previousHash, w.crypto.hash(canonical));
    match stamp
    case None =>
      StripOfMarkerless(canonical);
      MatchesWhen(w.crypto, slot, canonical, canonical, canonical);
    case Some(st) =>
      if w.crypto.canonicalize(SignedPropertiesXml(st.signer)).Some? {
        SignedStripsBack(w.crypto, xml, w.crypto.hash(canonical), st);
        SignedInvoiceSays(w.crypto, xml, w.crypto.hash(canonical), st);
        MatchesWhen(w.crypto, slot, xml, canonical, Final(w.crypto, xml, canonical, stamp).value);
      }
  }

  // ---- the invariant ----

  function HashAt(invoices: map<nat, Invoice>, i: nat): string {
    if i in invoices && invoices[i].slot.Some? then invoices[i].slot.value.invoiceHash else ""
  }

  /** The hash the next invoice of a chain must embed. */
  function Tip(invoices: map<nat, Invoice>, ids: seq<nat>): string {
    if ids == [] then GENESIS_PIH else HashAt(invoices, ids[|ids| - 1])
  }

  predicate StandsAt(invoices: map<nat, Invoice>, tenant: nat, ids: seq<nat>, k: nat)
    requires k < |ids|
  {
    && Of(invoices, tenant, ids[k])
    && invoices[ids[k]].slot.value.icv == k + 1
    && invoices[ids[k]].slot.value.previousHash == Tip(invoices, ids[..k])
  }

  /** These are a tenant's issued invoices: counters 1, 2, ..., each embedding its predecessor's hash. */
  predicate ChainIs(invoices: map<nat, Invoice>, tenant: nat, ids: seq<nat>) {
    && (forall k: nat :: k < |ids| ==> StandsAt(invoices, tenant, ids, k))
    && forall i :: i in invoices && Of(invoices, tenant, i) ==>
                     var icv := invoices[i].slot.value.icv; 1 <= icv <= |ids| && ids[icv - 1] == i
  }

  /** A call that has its place has the next one of its tenant's chain. */
  predicate PlaceSound(s: State, call: nat)
    requires call in s.open
  {
    Active(s, call)
    && var ids := Published(s, InvoiceOf(s, call).tenant);
       match s.open[call].phase
       case Allocated(icv, previousHash) => icv == |ids| + 1 && previousHash == Tip(s.invoices, ids)
       case Written(slot, _) => slot.icv == |ids| + 1 && slot.previousHash == Tip(s.invoices, ids)
       case _ => true
  }

  /** Two calls that hold a lock do not hold the same one. */
  predicate LocksApart(w: World, invoices: map<nat, Invoice>, x: Call, y: Call)
    requires x.invoice in invoices && y.invoice in invoices
  {
    Holding(x.phase) && Holding(y.phase) ==>
      w.lockKey(invoices[x.invoice].tenant) != w.lockKey(invoices[y.invoice].tenant)
  }

  /** Chains, places and locks; what the documents say does not matter here. */
  ghost predicate Placed(w: World, s: State) {
    && (forall tenant: nat :: ChainIs(s.invoices, tenant, Published(s, tenant)))
    && (forall a :: a in s.open ==> PlaceSound(s, a))
    && (forall a, b :: a in s.open && b in s.open && a != b ==> LocksApart(w, s.invoices, s.open[a], s.open[b]))
  }

  predicate DocumentSound(c: Crypto, s: State, call: nat)
    requires call in s.open
  {
    Active(s, call)
    && match s.open[call].phase
       case Written(slot, xml) => Matches(c, slot, xml)
       case Committed(xml) => InvoiceOf(s, call).slot.Some? && Matches(c, InvoiceOf(s, call).slot.value, xml)
       case _ => true
  }

  predicate ArchiveSound(c: Crypto, inv: Invoice) {
    inv.archive.Some? ==> inv.slot.Some? && Matches(c, inv.slot.value, inv.archive.value)
  }

  /** Every document written, pending or archived, is the one its row speaks of. */
  ghost predicate Documented(c: Crypto, s: State) {
    && (forall a :: a in s.open ==> DocumentSound(c, s, a))
    && (forall i :: i in s.invoices ==> ArchiveSound(c, s.invoices[i]))
  }

  // ---- every step keeps it ----

  /** Issued rows of the tenant are the same, so its chain is. */
  lemma {:induction false} SameChain(before: map<nat, Invoice>, after: map<nat, Invoice>, tenant: nat, ids: seq<nat>)
    requires ChainIs(before, tenant, ids)
    requires forall i :: Of(before, tenant, i) ==> Of(after, tenant, i) && after[i].slot == before[i].slot
    requires forall i :: Of(after, tenant, i) ==> Of(before, tenant, i)
    ensures ChainIs(after, tenant, ids)
    ensures Tip(after, ids) == Tip(before, ids)
  {
    SameTip(before, after, tenant, ids);
    forall k: nat | k < |ids|
      ensures StandsAt(after, tenant, ids, k)
    {
      assert StandsAt(before, tenant, ids, k);
      if k > 0 {
        assert StandsAt(before, tenant, ids, k - 1);
        assert ids[..k][k - 1] == ids[k - 1];
      }
    }
  }

  lemma {:induction false} SameTip(before: map<nat, Invoice>, after: map<nat, Invoice>, tenant: nat, ids: seq<nat>)
    requires ChainIs(before, tenant, ids)
    requires forall i :: Of(before, tenant, i) ==> Of(after, tenant, i) && after[i].slot == before[i].slot
    ensures Tip(after, ids) == Tip(before, ids)
  {
    if ids != [] {
      assert StandsAt(before, tenant, ids, |ids| - 1);
    }
  }

  lemma {:induction false} CreateKeeps(w: World, s: State, step: Step)
    requires Placed(w, s) && step.Create? && Enabled(w, s, step)
    ensures Placed(w, Apply(w, s, step))
  {
    hide WrittenPhase;
    var after := Apply(w, s, step);
    forall tenant: nat
      ensures ChainIs(after.invoices, tenant, Published(after, tenant))
    {
      SameChain(s.invoices, after.invoices, tenant, Published(s, tenant));
    }
    forall a | a in after.open
      ensures PlaceSound(after, a)
    {
      assert PlaceSound(s, a);
      SameTip(s.invoices, after.invoices, InvoiceOf(s, a).tenant, Published(s, InvoiceOf(s, a).tenant));
    }
    forall a, b | a in after.open && b in after.open && a != b
      ensures LocksApart(w, after.invoices, after.open[a], after.open[b])
    {
      assert PlaceSound(s, a) && PlaceSound(s, b);
    }
  }

  /** A step that only changes one call. */
  lemma {:induction false} OneCallKeeps(w: World, s: State, after: State, call: nat)
    requires Placed(w, s)
    requires after.invoices == s.invoices && after.published == s.published
    requires forall a :: a in after.open && a != call ==> a in s.open && after.open[a] == s.open[a]
    requires call in after.open ==> PlaceSound(after, call)
    requires call in after.open ==> forall a :: a in s.open && a != call && Active(s, a) ==>
                                                  LocksApart(w, s.invoices, s.open[a], after.open[call])
    ensures Placed(w, after)
  {
    forall tenant: nat
      ensures ChainIs(after.invoices, tenant, Published(after, tenant))
    {
      assert ChainIs(s.invoices, tenant, Published(s, tenant));
    }
    forall a | a in after.open
      ensures PlaceSound(after, a)
    {
      if a != call {
        assert PlaceSound(s, a);
      }
    }
    forall a, b | a in after.open && b in after.open && a != b
      ensures LocksApart(w, after.invoices, after.open[a], after.open[b])
    {
      if a == call || b == call {
        var other := if a == call then b else a;
        assert PlaceSound(s, other);
        assert LocksApart(w, s.invoices, s.open[other], after.open[call]);
      }
    }
  }

  /** The row with the highest counter is the end of the chain. */
  lemma {:induction false} LatestIsTip(s: State, tenant: nat, ids: seq<nat>, last: Option<nat>)
    requires ChainIs(s.invoices, tenant, ids) && IsLatest(s.invoices, tenant, last)
    ensures Allocation(s, last) == Allocated(|ids| + 1, Tip(s.invoices, ids))
  {
    if ids != [] {
      assert StandsAt(s.invoices, tenant, ids, |ids| - 1);
    }
  }

  lemma {:induction false} AllocateKeeps(w: World, s: State, call: nat, last: Option<nat>)
    requires Placed(w, s) && Active(s, call) && s.open[call].phase.Locked?
    requires IsLatest(s.invoices, InvoiceOf(s, call).tenant, last)
    ensures Placed(w, Moved(s, call, Allocation(s, last)))
  {
    var tenant := InvoiceOf(s, call).tenant;
    assert ChainIs(s.invoices, tenant, Published(s, tenant));
    LatestIsTip(s, tenant, Published(s, tenant), last);
    OneCallKeeps(w, s, Moved(s, call, Allocation(s, last)), call);
  }

  lemma {:induction false} WriteKeeps(w: World, s: State, call: nat, p: Phase)
    requires Placed(w, s) && Active(s, call) && s.open[call].phase.Allocated? && p.Written?
    requires p.slot.icv == s.open[call].phase.icv && p.slot.previousHash == s.open[call].phase.previousHash
    ensures Placed(w, Moved(s, call, p))
  {
    assert PlaceSound(s, call);
    OneCallKeeps(w, s, Moved(s, call, p), call);
  }

  lemma {:induction false} LockKeeps(w: World, s: State, call: nat)
    requires Placed(w, s) && Enabled(w, s, Lock(call))
    ensures Placed(w, Moved(s, call, Locked))
  {
    forall a | a in s.open && a != call && Active(s, a)
      ensures LocksApart(w, s.invoices, s.open[a], Call(s.open[call].invoice, Locked))
    {
      assert !HeldBy(w, s, w.lockKey(InvoiceOf(s, call).tenant), a);
    }
    OneCallKeeps(w, s, Moved(s, call, Locked), call);
  }

  lemma {:induction false} BeginKeeps(w: World, s: State, call: nat, i: nat)
    requires Placed(w, s) && i in s.invoices
    ensures Placed(w, s.(open := s.open[call := Call(i, Waiting)]))
  {
    OneCallKeeps(w, s, s.(open := s.open[call := Call(i, Waiting)]), call);
  }

  lemma {:induction false} EndKeeps(w: World, s: State, call: nat)
    requires Placed(w, s)
    ensures Placed(w, s.(open := s.open - {call}))
  {
    OneCallKeeps(w, s, s.(open := s.open - {call}), call);
  }

  // ---- publication ----

  /** Publishing an unissued row at the next place extends the tenant's chain by it. */
  lemma {:induction false} PublishExtends(invoices: map<nat, Invoice>, tenant: nat, ids: seq<nat>, i: nat, slot: Slot)
    requires ChainIs(invoices, tenant, ids) && i in invoices && invoices[i].tenant == tenant && invoices[i].slot.None?
    requires slot.icv == |ids| + 1 && slot.previousHash == Tip(invoices, ids)
    ensures ChainIs(invoices[i := invoices[i].(slot := Some(slot))], tenant, ids + [i])
  {
    var after := invoices[i := invoices[i].(slot := Some(slot))];
    var longer := ids + [i];
    forall k: nat | k < |longer|
      ensures StandsAt(after, tenant, longer, k)
    {
      assert longer[..k] == ids[..k];
      if k < |ids| {
        assert StandsAt(invoices, tenant, ids, k);
        if k > 0 {
          assert StandsAt(invoices, tenant, ids, k - 1);
          assert ids[..k][k - 1] == ids[k - 1];
        }
      } else {
        assert ids[..k] == ids;
        SameTip(invoices, after, tenant, ids);
      }
    }
  }

  lemma {:induction false} CommitChains(w: World, s: State, call: nat, tenant: nat)
    requires Placed(w, s) && Active(s, call) && s.open[call].phase.Written? && InvoiceOf(s, call).slot.None?
    ensures ChainIs(Publish(s, call).invoices, tenant, Published(Publish(s, call), tenant))
  {
    var after := Publish(s, call);
    var own := InvoiceOf(s, call).tenant;
    assert PlaceSound(s, call);
    assert ChainIs(s.invoices, tenant, Published(s, tenant));
    if tenant == own {
      PublishExtends(s.invoices, own, Published(s, own), s.open[call].invoice, s.open[call].phase.slot);
    } else {
      SameChain(s.invoices, after.invoices, tenant, Published(s, tenant));
    }
  }

  lemma {:induction false} CommitPlaces(w: World, s: State, call: nat, a: nat)
    requires Placed(w, s) && Active(s, call) && s.open[call].phase.Written? && InvoiceOf(s, call).slot.None?
    requires a in s.open
    ensures PlaceSound(Publish(s, call), a)
  {
    hide ChainIs;
    assert PlaceSound(s, call) && PlaceSound(s, a);
    if a != call {
      assert LocksApart(w, s.invoices, s.open[a], s.open[call]);
      var tenant := InvoiceOf(s, a).tenant;
      assert ChainIs(s.invoices, tenant, Published(s, tenant));
      SameTip(s.invoices, Publish(s, call).invoices, tenant, Published(s, tenant));
    }
  }

  lemma {:induction false} CommitKeeps(w: World, s: State, call: nat)
    requires Placed(w, s) && Active(s, call) && s.open[call].phase.Written? && InvoiceOf(s, call).slot.None?
    ensures Placed(w, Publish(s, call))
  {
    var after := Publish(s, call);
    forall tenant: nat
      ensures ChainIs(after.invoices, tenant, Published(after, tenant))
    {
      CommitChains(w, s, call, tenant);
    }
    forall a | a in after.open
      ensures PlaceSound(after, a)
    {
      CommitPlaces(w, s, call, a);
    }
    forall a, b | a in after.open && b in after.open && a != b
      ensures LocksApart(w, after.invoices, after.open[a], after.open[b])
    {
      assert PlaceSound(s, a) && PlaceSound(s, b);
      assert LocksApart(w, s.invoices, s.open[a], s.open[b]);
    }
  }

  lemma {:induction false} StoreKeeps(w: World, s: State, call: nat)
    requires Placed(w, s) && Active(s, call) && s.open[call].phase.Committed?
    ensures Placed(w, Archived(s, call))
  {
    var after := Archived(s, call);
    forall tenant: nat
      ensures ChainIs(after.invoices, tenant, Published(after, tenant))
    {
      assert ChainIs(s.invoices, tenant, Published(s, tenant));
      SameChain(s.invoices, after.invoices, tenant, Published(s, tenant));
    }
    forall a | a in after.open
      ensures PlaceSound(after, a)
    {
      assert PlaceSound(s, a);
      var tenant := InvoiceOf(s, a).tenant;
      assert ChainIs(s.invoices, tenant, Published(s, tenant));
      SameTip(s.invoices, after.invoices, tenant, Published(s, tenant));
    }
    forall a, b | a in after.open && b in after.open && a != b
      ensures LocksApart(w, after.invoices, after.open[a], after.open[b])
    {
      assert PlaceSound(s, a) && PlaceSound(s, b);
      assert LocksApart(w, s.invoices, s.open[a], s.open[b]);
    }
  }

  /** Every step keeps chains, places and locks, a commit as long as its row is still unissued. */
  lemma {:induction false} StepKeepsPlaced(w: World, s: State, step: Step)
    requires Placed(w, s) && FreshCommit(w, s, step)
    ensures Placed(w, Apply(w, s, step))
  {
    hide Placed;
    if Enabled(w, s, step) {
      match step
      case Create(_, _, _) => CreateKeeps(w, s, step);
      case Begin(call, i) => BeginKeeps(w, s, call, i);
      case Lock(call) => LockKeeps(w, s, call);
      case Allocate(call, last) => AllocateKeeps(w, s, call, last);
      case Write(call, facts, stamp) =>
        WriteKeeps(w, s, call, WrittenPhase(w, s.open[call].phase, facts, stamp).value);
      case Commit(call) => CommitKeeps(w, s, call);
      case Abort(call) => EndKeeps(w, s, call);
      case Store(call) => StoreKeeps(w, s, call);
      case StoreFails(call) => EndKeeps(w, s, call);
    }
  }

  // ---- the documents ----

  lemma {:induction false} CommitDocuments(c: Crypto, s: State, call: nat)
    requires Documented(c, s) && Active(s, call) && s.open[call].phase.Written? && InvoiceOf(s, call).slot.None?
    ensures Documented(c, Publish(s, call))
  {
    hide Matches;
    var after := Publish(s, call);
    assert DocumentSound(c, s, call);
    forall a | a in after.open
      ensures DocumentSound(c, after, a)
    {
      assert DocumentSound(c, s, a);
    }
    forall i | i in after.invoices
      ensures ArchiveSound(c, after.invoices[i])
    {
      assert ArchiveSound(c, s.invoices[i]);
    }
  }

  lemma {:induction false} StoreDocuments(c: Crypto, s: State, call: nat)
    requires Documented(c, s) && Active(s, call) && s.open[call].phase.Committed?
    ensures Documented(c, Archived(s, call))
  {
    hide Matches;
    var after := Archived(s, call);
    assert DocumentSound(c, s, call);
    forall a | a in after.open
      ensures DocumentSound(c, after, a)
    {
      assert DocumentSound(c, s, a);
    }
  }

  /** Every step keeps the documents true to their rows, again as long as no issued row is overwritten. */
  lemma {:induction false} StepKeepsDocumented(w: World, s: State, step: Step)
    requires Faithful(w) && Documented(w.crypto, s) && FreshCommit(w, s, step)
    ensures Documented(w.crypto, Apply(w, s, step))
  {
    hide Matches, Build, IsLatest, ValidInput;
    if Enabled(w, s, step) {
      match step
      case Write(call, facts, stamp) => WriteDocuments(w, s, step);
      case Commit(call) => CommitDocuments(w.crypto, s, call);
      case Store(call) => StoreDocuments(w.crypto, s, call);
      case Create(i, _, _) => CreateDocuments(w, s, step);
      case _ => OtherDocuments(w.crypto, s, Apply(w, s, step), step.call);
    }
  }

  lemma {:induction false} WriteDocuments(w: World, s: State, step: Step)
    requires Faithful(w) && Documented(w.crypto, s) && step.Write? && Enabled(w, s, step)
    ensures Documented(w.crypto, Apply(w, s, step))
  {
    hide Matches, Build, Faithful, ArchiveSound;
    var p := s.open[step.call].phase;
    IssuedDocumentMatches(w, Facts(step.facts, p.icv, p.previousHash), step.stamp);
    OtherDocuments(w.crypto, s, Apply(w, s, step), step.call);
  }

  lemma {:induction false} CreateDocuments(w: World, s: State, step: Step)
    requires Documented(w.crypto, s) && step.Create? && Enabled(w, s, step)
    ensures Documented(w.crypto, Apply(w, s, step))
  {
    hide Matches;
    forall a | a in s.open
      ensures DocumentSound(w.crypto, Apply(w, s, step), a)
    {
      assert DocumentSound(w.crypto, s, a);
    }
  }

  lemma {:induction false} OtherDocuments(c: Crypto, s: State, after: State, call: nat)
    requires Documented(c, s) && after.invoices == s.invoices
    requires forall a :: a in after.open && a != call ==> a in s.open && after.open[a] == s.open[a]
    requires call in after.open ==> DocumentSound(c, after, call)
    ensures Documented(c, after)
  {
    forall a | a in after.open
      ensures DocumentSound(c, after, a)
    {
      if a != call {
        assert DocumentSound(c, s, a);
      }
    }
  }

  // ---- whole runs ----

  lemma {:induction false} FreshPrefix(w: World, steps: seq<Step>, n: nat)
    requires NeverReissues(w, steps) && n <= |steps|
    ensures NeverReissues(w, steps[..n])
  {
    hide Run, FreshCommit;
    forall m: nat | m < n
      ensures FreshCommit(w, Run(w, START, steps[..n][..m]), steps[..n][m])
    {
      assert steps[..n][..m] == steps[..m];
    }
  }

  /** In every interleaving, with any aborts and any number of tenants, as long as no commit finds its
      row already issued: every tenant's chain is sound. */
  lemma {:induction false} EveryRunIsPlaced(w: World, steps: seq<Step>)
    requires NeverReissues(w, steps)
    ensures Placed(w, Run(w, START, steps))
  {
    hide Apply, FreshCommit;
    if steps != [] {
      var n := |steps| - 1;
      FreshPrefix(w, steps, n);
      EveryRunIsPlaced(w, steps[..n]);
      StepKeepsPlaced(w, Run(w, START, steps[..n]), steps[n]);
    }
  }

  lemma {:induction false} EveryRunIsDocumented(w: World, steps: seq<Step>)
    requires Faithful(w) && NeverReissues(w, steps)
    ensures Documented(w.crypto, Run(w, START, steps))
  {
    hide Apply, FreshCommit;
    if steps != [] {
      var n := |steps| - 1;
      FreshPrefix(w, steps, n);
      EveryRunIsDocumented(w, steps[..n]);
      StepKeepsDocumented(w, Run(w, START, steps[..n]), steps[n]);
    }
  }

  /** Calls under way are for different, unissued invoices. */
  ghost predicate Untouched(s: State) {
    && (forall a :: a in s.open ==> Active(s, a) && (Pending(s.open[a].phase) ==> InvoiceOf(s, a).slot.None?))
    && (forall a, b :: a in s.open && b in s.open && a != b && Pending(s.open[a].phase) && Pending(s.open[b].phase) ==>
          s.open[a].invoice != s.open[b].invoice)
  }

  lemma {:induction false} StepKeepsUntouched(w: World, s: State, step: Step)
    requires Untouched(s) && Separate(w, s, step)
    ensures Untouched(Apply(w, s, step)) && FreshCommit(w, s, step)
  {
    hide Build, IsLatest;
  }

  lemma {:induction false} DisciplinedStaysUntouched(w: World, steps: seq<Step>, n: nat)
    requires Disciplined(w, steps) && n <= |steps|
    ensures Untouched(Run(w, START, steps[..n]))
  {
    hide Apply, Separate;
    if n > 0 {
      DisciplinedStaysUntouched(w, steps, n - 1);
      assert steps[..n][..n - 1] == steps[..n - 1];
      StepKeepsUntouched(w, Run(w, START, steps[..n - 1]), steps[n - 1]);
    }
  }

  /** When no two calls under way are for the same invoice, no commit finds its row already issued. */
  lemma {:induction false} SeparateCallsNeverReissue(w: World, steps: seq<Step>)
    requires Disciplined(w, steps)
    ensures NeverReissues(w, steps)
  {
    hide Apply, Run, Separate, FreshCommit;
    forall n: nat | n < |steps|
      ensures FreshCommit(w, Run(w, START, steps[..n]), steps[n])
    {
      DisciplinedStaysUntouched(w, steps, n);
      StepKeepsUntouched(w, Run(w, START, steps[..n]), steps[n]);
    }
  }

  // ---- the auditor ----

  /** The row the self-check reads; a failed or pending archive leaves no URL. */
  function AuditRow(inv: Invoice): Row
    requires inv.slot.Some?
  {
    var slot := inv.slot.value;
    Row(slot.icv, inv.number, Some(slot.invoiceHash), Some(slot.previousHash),
        if inv.archive.Some? then Stored(inv.archive.value) else Missing)
  }

  /** Some listing of a tenant's issued invoices in ascending counter order. */
  predicate Lists(invoices: map<nat, Invoice>, tenant: nat, ids: seq<nat>) {
    && (forall k :: 0 <= k < |ids| ==> Of(invoices, tenant, ids[k]))
    && (forall i :: i in invoices && Of(invoices, tenant, i) ==> i in ids)
    && (forall j, k :: 0 <= j < k < |ids| ==>
          ids[j] != ids[k] && Of(invoices, tenant, ids[j]) && Of(invoices, tenant, ids[k])
          && invoices[ids[j]].slot.value.icv <= invoices[ids[k]].slot.value.icv)
  }

  function AuditRows(invoices: map<nat, Invoice>, tenant: nat, ids: seq<nat>): seq<Row>
    requires Lists(invoices, tenant, ids)
  {
    seq(|ids|, k requires 0 <= k < |ids| => AuditRow(invoices[ids[k]]))
  }

  function IcvOf(invoices: map<nat, Invoice>, i: nat): nat {
    if i in invoices && invoices[i].slot.Some? then invoices[i].slot.value.icv else 0
  }

  lemma {:induction false} ListingAscends(invoices: map<nat, Invoice>, tenant: nat, chain: seq<nat>, ids: seq<nat>)
    requires ChainIs(invoices, tenant, chain) && Lists(invoices, tenant, ids)
    ensures forall j, k :: 0 <= j < k < |ids| ==> IcvOf(invoices, ids[j]) < IcvOf(invoices, ids[k])
    ensures forall k :: 0 <= k < |ids| ==>
              1 <= IcvOf(invoices, ids[k]) <= |chain| && chain[IcvOf(invoices, ids[k]) - 1] == ids[k]
  {
    forall k | 0 <= k < |ids|
      ensures 1 <= IcvOf(invoices, ids[k]) <= |chain| && chain[IcvOf(invoices, ids[k]) - 1] == ids[k]
    {
      assert Of(invoices, tenant, ids[k]);
    }
  }

  lemma {:induction false} ChainIsListed(invoices: map<nat, Invoice>, tenant: nat, chain: seq<nat>,
                                         ids: seq<nat>, k: nat)
    returns (j: nat)
    requires ChainIs(invoices, tenant, chain) && Lists(invoices, tenant, ids) && k < |chain|
    ensures j < |ids| && ids[j] == chain[k] && IcvOf(invoices, ids[j]) == k + 1
  {
    assert StandsAt(invoices, tenant, chain, k);
    j :| 0 <= j < |ids| && ids[j] == chain[k];
  }

  lemma {:induction false} ListingCounts(invoices: map<nat, Invoice>, tenant: nat, chain: seq<nat>,
                                         ids: seq<nat>, n: nat)
    requires ChainIs(invoices, tenant, chain) && Lists(invoices, tenant, ids) && n <= |ids|
    ensures forall k :: 0 <= k < n ==> IcvOf(invoices, ids[k]) == k + 1
  {
    if n > 0 {
      ListingCounts(invoices, tenant, chain, ids, n - 1);
      ListingAscends(invoices, tenant, chain, ids);
      assert n > 1 ==> IcvOf(invoices, ids[n - 2]) == n - 1;
      assert IcvOf(invoices, ids[n - 1]) >= n;
      var j := ChainIsListed(invoices, tenant, chain, ids, n - 1);
    }
  }

  lemma {:induction false} ListedInPlace(invoices: map<nat, Invoice>, tenant: nat, chain: seq<nat>,
                                         ids: seq<nat>, k: nat)
    requires ChainIs(invoices, tenant, chain) && Lists(invoices, tenant, ids)
    ensures k < |ids| ==> k < |chain| && ids[k] == chain[k]
    ensures k < |chain| ==> k < |ids|
  {
    ListingCounts(invoices, tenant, chain, ids, |ids|);
    ListingAscends(invoices, tenant, chain, ids);
    if k < |ids| {
      assert IcvOf(invoices, ids[k]) == k + 1;
    } else if k < |chain| {
      var j := ChainIsListed(invoices, tenant, chain, ids, k);
    }
  }

  /** The listing is the chain itself. */
  lemma {:induction false} ListingIsTheChain(invoices: map<nat, Invoice>, tenant: nat, chain: seq<nat>, ids: seq<nat>)
    requires ChainIs(invoices, tenant, chain) && Lists(invoices, tenant, ids)
    ensures ids == chain
  {
    ListedInPlace(invoices, tenant, chain, ids, |chain|);
    ListedInPlace(invoices, tenant, chain, ids, |ids|);
    forall k: nat | k < |ids|
      ensures ids[k] == chain[k]
    {
      ListedInPlace(invoices, tenant, chain, ids, k);
    }
  }

  lemma {:induction false} ChainIsCompliant(c: Crypto, invoices: map<nat, Invoice>, tenant: nat, ids: seq<nat>)
    requires ChainIs(invoices, tenant, ids) && Lists(invoices, tenant, ids)
    requires forall i :: i in invoices ==> ArchiveSound(c, invoices[i])
    ensures Compliant(c, AuditRows(invoices, tenant, ids))
  {
    var rows := AuditRows(invoices, tenant, ids);
    forall i: nat | i < |rows|
      ensures LinkedAt(rows, i) && rows[i].icv == i + 1 && !Mismatch(c, rows[i])
    {
      RowIsLinked(invoices, tenant, ids, i);
      assert ArchiveSound(c, invoices[ids[i]]);
    }
  }

  lemma {:induction false} RowIsLinked(invoices: map<nat, Invoice>, tenant: nat, ids: seq<nat>, i: nat)
    requires ChainIs(invoices, tenant, ids) && Lists(invoices, tenant, ids) && i < |ids|
    ensures var rows := AuditRows(invoices, tenant, ids);
            LinkedAt(rows, i) && rows[i].icv == i + 1
  {
    assert StandsAt(invoices, tenant, ids, i);
    if i > 0 {
      assert StandsAt(invoices, tenant, ids, i - 1);
      assert ids[..i][i - 1] == ids[i - 1];
    }
  }

  /** The self-check accepts every tenant in every reachable state. */
  lemma {:induction false} EveryReachableStateIsCompliant(w: World, steps: seq<Step>, tenant: nat, ids: seq<nat>)
    requires Faithful(w) && NeverReissues(w, steps)
    requires Lists(Run(w, START, steps).invoices, tenant, ids)
    ensures Compliant(w.crypto, AuditRows(Run(w, START, steps).invoices, tenant, ids))
  {
    EveryRunIsPlaced(w, steps);
    EveryRunIsDocumented(w, steps);
    var s := Run(w, START, steps);
    assert ChainIs(s.invoices, tenant, Published(s, tenant));
    ListingIsTheChain(s.invoices, tenant, Published(s, tenant), ids);
    ChainIsCompliant(w.crypto, s.invoices, tenant, ids);
  }

  /** When every archive has been written the chain is genuine: readable, and its documents say what
      its rows say. That is what lets the final hash fix all of them. */
  lemma {:induction false} ArchivedChainsAreGenuine(w: World, steps: seq<Step>, tenant: nat, ids: seq<nat>)
    requires Faithful(w) && NeverReissues(w, steps)
    requires Lists(Run(w, START, steps).invoices, tenant, ids)
    requires forall k :: 0 <= k < |ids| ==> Run(w, START, steps).invoices[ids[k]].archive.Some?
    ensures var rows := AuditRows(Run(w, START, steps).invoices, tenant, ids);
            Readable(w.crypto, rows) && Embeds(w.crypto, rows)
  {
    EveryRunIsDocumented(w, steps);
    var s := Run(w, START, steps);
    var rows := AuditRows(s.invoices, tenant, ids);
    forall k: nat | k < |ids|
      ensures Document(w.crypto, rows[k].archive).Some? && EmbedsAt(w.crypto, rows, k)
    {
      assert ArchiveSound(w.crypto, s.invoices[ids[k]]);
    }
  }

  // ---- without the assumption on calls under way ----

  ghost predicate Unbroken(invoices: map<nat, Invoice>, tenant: nat) {
    exists ids: seq<nat> :: ChainIs(invoices, tenant, ids)
  }

  /** A commit leaves its tenant with an unbroken chain exactly when the row it writes has not been
      issued in the meantime; the test made before the transaction does not ensure that. */
  lemma {:induction false} CommitLeavesChainExactlyWhen(s: State, call: nat, ids: seq<nat>)
    requires Active(s, call) && s.open[call].phase.Written?
    requires var tenant, slot := InvoiceOf(s, call).tenant, s.open[call].phase.slot;
             ChainIs(s.invoices, tenant, ids) && slot.icv == |ids| + 1 && slot.previousHash == Tip(s.invoices, ids)
    ensures Unbroken(Publish(s, call).invoices, InvoiceOf(s, call).tenant) <==> InvoiceOf(s, call).slot.None?
  {
    var i, tenant, slot := s.open[call].invoice, InvoiceOf(s, call).tenant, s.open[call].phase.slot;
    var after := Publish(s, call).invoices;
    if InvoiceOf(s, call).slot.None? {
      PublishExtends(s.invoices, tenant, ids, i, slot);
      assert ChainIs(after, tenant, ids + [i]);
    } else if Unbroken(after, tenant) {
      var other: seq<nat> :| ChainIs(after, tenant, other);
      assert Of(s.invoices, tenant, i) && Of(after, tenant, i);
      var k := s.invoices[i].slot.value.icv - 1;
      assert StandsAt(after, tenant, other, k);
      assert Of(s.invoices, tenant, other[k]);
      assert false;
    }
  }

  /** Every tenant's chain is unbroken after the first n steps. */
  ghost predicate UnbrokenAfter(w: World, steps: seq<Step>, n: nat)
    requires n <= |steps|
  {
    forall tenant: nat :: Unbroken(Run(w, START, steps[..n]).invoices, tenant)
  }

  lemma {:induction false} PlacedIsUnbroken(w: World, s: State, tenant: nat)
    requires Placed(w, s)
    ensures Unbroken(s.invoices, tenant)
  {
    assert ChainIs(s.invoices, tenant, Published(s, tenant));
  }

  lemma {:induction false} UnbrokenCommitIsFresh(w: World, s: State, step: Step)
    requires Placed(w, s) && forall tenant: nat :: Unbroken(Apply(w, s, step).invoices, tenant)
    ensures FreshCommit(w, s, step)
  {
    hide Unbroken;
    if step.Commit? && Enabled(w, s, step) {
      var tenant := InvoiceOf(s, step.call).tenant;
      assert ChainIs(s.invoices, tenant, Published(s, tenant)) && PlaceSound(s, step.call);
      CommitLeavesChainExactlyWhen(s, step.call, Published(s, tenant));
      assert Unbroken(Apply(w, s, step).invoices, tenant);
    }
  }

  lemma {:induction false} UnbrokenRunNeverReissues(w: World, steps: seq<Step>, n: nat)
    requires n <= |steps| && forall m: nat :: m <= |steps| ==> UnbrokenAfter(w, steps, m)
    ensures NeverReissues(w, steps[..n])
  {
    hide Apply, FreshCommit, Unbroken;
    if n > 0 {
      var front := steps[..n - 1];
      UnbrokenRunNeverReissues(w, steps, n - 1);
      EveryRunIsPlaced(w, front);
      assert steps[..n][..n - 1] == front;
      assert UnbrokenAfter(w, steps, n);
      assert steps[..n] == front + [steps[n - 1]];
      RunThen(w, front, steps[n - 1]);
      UnbrokenCommitIsFresh(w, Run(w, START, front), steps[n - 1]);
      forall m: nat | m < n
        ensures FreshCommit(w, Run(w, START, steps[..n][..m]), steps[..n][m])
      {
        assert m < n - 1 ==> steps[..n][..m] == front[..m] && steps[..n][m] == front[m];
      }
    }
  }

  /** Over any run at all, races included: every tenant's chain is unbroken after every prefix exactly
      when every commit found its row not yet issued. */
  lemma {:induction false} ChainsStayUnbrokenExactlyWhen(w: World, steps: seq<Step>)
    ensures NeverReissues(w, steps) <==> forall n: nat :: n <= |steps| ==> UnbrokenAfter(w, steps, n)
  {
    hide Run, FreshCommit, Unbroken;
    if NeverReissues(w, steps) {
      forall n: nat | n <= |steps|
        ensures UnbrokenAfter(w, steps, n)
      {
        FreshPrefix(w, steps, n);
        EveryRunIsPlaced(w, steps[..n]);
        forall tenant: nat
          ensures Unbroken(Run(w, START, steps[..n]).invoices, tenant)
        {
          PlacedIsUnbroken(w, Run(w, START, steps[..n]), tenant);
        }
      }
    }
    if forall n: nat :: n <= |steps| ==> UnbrokenAfter(w, steps, n) {
      UnbrokenRunNeverReissues(w, steps, |steps|);
      assert steps[..|steps|] == steps;
    }
  }

  lemma {:induction false} RunThen(w: World, steps: seq<Step>, step: Step)
    ensures Run(w, START, steps + [step]) == Apply(w, Run(w, START, steps), step)
  {
    assert (steps + [step])[..|steps|] == steps;
  }

  /** Two calls for one invoice, both past the test before either commits. */
  function RaceStart(): State {
    State(map[0 := Invoice(0, "INV-2026-000001", None, None)], map[1 := Call(0, Waiting), 2 := Call(0, Waiting)], map[])
  }

  lemma {:induction false} RaceReached(w: World) returns (steps: seq<Step>)
    ensures Run(w, START, steps) == RaceStart()
  {
    var number := "INV-2026-000001";
    steps := [];
    RunThen(w, steps, Create(0, 0, number));
    steps := steps + [Create(0, 0, number)];
    RunThen(w, steps, Begin(1, 0));
    steps := steps + [Begin(1, 0)];
    RunThen(w, steps, Begin(2, 0));
    steps := steps + [Begin(2, 0)];
    assert Run(w, START, []) == START;
  }

  predicate Unheld(s: State) {
    forall u :: u in s.open ==> !Holding(s.open[u].phase)
  }

  lemma {:induction false} LockTaken(w: World, s: State, call: nat)
    requires Active(s, call) && s.open[call].phase.Waiting? && Unheld(s)
    ensures Apply(w, s, Lock(call)) == Moved(s, call, Locked)
  {
  }

  lemma {:induction false} PlaceTaken(w: World, s: State, call: nat, last: Option<nat>)
    requires Active(s, call) && IsLatest(s.invoices, InvoiceOf(s, call).tenant, last)
    ensures Apply(w, Moved(s, call, Locked), Allocate(call, last)) == Moved(s, call, Allocation(s, last))
  {
    hide WrittenPhase;
  }

  lemma {:induction false} DocumentWritten(w: World, s: State, call: nat, inp: Input, stamp: Option<Stamp>)
    requires Active(s, call) && ValidInput(inp)
    requires Build(w, inp, stamp).Some?
    ensures Apply(w, Moved(s, call, Allocated(inp.icv, inp.previousHash)), Write(call, inp, stamp))
         == Moved(s, call, Build(w, inp, stamp).value)
  {
    hide Build;
    assert Facts(inp, inp.icv, inp.previousHash) == inp;
  }

  lemma {:induction false} RowPublished(w: World, s: State, call: nat)
    requires Active(s, call) && s.open[call].phase.Written?
    ensures Apply(w, s, Commit(call)) == Publish(s, call)
  {
  }

  /** A waiting call with the lock free: lock, allocate, write and commit, one after the other. */
  lemma {:induction false} IssueAlone(w: World, steps: seq<Step>, call: nat, last: Option<nat>, inp: Input)
    returns (longer: seq<Step>)
    requires var s := Run(w, START, steps);
             && Active(s, call) && s.open[call].phase.Waiting? && Unheld(s)
             && IsLatest(s.invoices, InvoiceOf(s, call).tenant, last)
             && Allocation(s, last) == Allocated(inp.icv, inp.previousHash)
    requires ValidInput(inp) && Build(w, inp, None).Some? && Build(w, inp, None).value.Written?
    ensures Run(w, START, longer) == Publish(Moved(Run(w, START, steps), call, Build(w, inp, None).value), call)
  {
    hide Apply, Enabled, Publish, Run;
    var s := Run(w, START, steps);
    RunThen(w, steps, Lock(call));
    LockTaken(w, s, call);
    longer := steps + [Lock(call)];
    RunThen(w, longer, Allocate(call, last));
    PlaceTaken(w, s, call, last);
    longer := longer + [Allocate(call, last)];
    RunThen(w, longer, Write(call, inp, None));
    DocumentWritten(w, s, call, inp, None);
    longer := longer + [Write(call, inp, None)];
    RunThen(w, longer, Commit(call));
    RowPublished(w, Moved(s, call, Build(w, inp, None).value), call);
    longer := longer + [Commit(call)];
  }

  /** A chain has every counter up to any of its own. */
  lemma {:induction false} CountersBelow(invoices: map<nat, Invoice>, tenant: nat, ids: seq<nat>, i: nat, m: nat)
    returns (j: nat)
    requires ChainIs(invoices, tenant, ids) && Of(invoices, tenant, i) && 1 <= m <= IcvOf(invoices, i)
    ensures Of(invoices, tenant, j) && IcvOf(invoices, j) == m
  {
    j := ids[m - 1];
    assert StandsAt(invoices, tenant, ids, m - 1);
  }

  /** The assumption is needed: two calls for the same invoice can both commit, and the second moves
      the row to counter 2, which leaves no counter 1. */
  lemma {:induction false} RaceLeavesAGap(w: World, first: Input, second: Input) returns (steps: seq<Step>)
    requires ValidInput(first) && first.icv == 1 && first.previousHash == GENESIS_PIH
    requires Build(w, first, None).Some? && Build(w, first, None).value.Written?
    requires ValidInput(second) && second.icv == 2
    requires second.previousHash == Build(w, first, None).value.slot.invoiceHash
    requires Build(w, second, None).Some? && Build(w, second, None).value.Written?
    ensures !Unbroken(Run(w, START, steps).invoices, 0)
  {
    hide Apply, Enabled, Run;
    var race := RaceReached(w);
    var once := IssueAlone(w, race, 1, None, first);
    steps := IssueAlone(w, once, 2, Some(0), second);
    var invoices := Run(w, START, steps).invoices;
    forall ids: seq<nat>
      ensures !ChainIs(invoices, 0, ids)
    {
      if ChainIs(invoices, 0, ids) {
        var j := CountersBelow(invoices, 0, ids, 0, 1);
      }
    }
  }
}
