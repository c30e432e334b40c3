/** What parsing a user message establishes: sound acceptance, staged partial results, the
    decryption and decompression loops, and the order of the routing hook. */
module Acceptance {
  import opened Terms
  import opened XmlMapping
  import opened Schemas
  import opened Documents
  import opened Dsig
  import opened Errors
  import opened Messages
  import opened Peppol

  // ---------------------------------------------------------------- the digest loops

  /** Every element reference resolves and verifies. */
  ghost predicate ElementsVerify(references: seq<Model>, index: map<string, Element>) {
    forall r | r in references ::
      !IsCid(UriOf(r)) ==> Target(r, index).Some? && ElementDigestMatches(r, Target(r, index).value) == Matches
  }

  /** Every attachment reference names one of the attachments and verifies on it. */
  ghost predicate AttachmentsVerify(references: seq<Model>, attachments: map<string, Bytes>) {
    forall r | r in references ::
      IsCid(UriOf(r)) ==>
        && WithoutCid(UriOf(r)) in attachments
        && BytesDigestMatches(r, attachments[WithoutCid(UriOf(r))]) == Matches
  }

  lemma {:induction false} ElementDigestsAreChecked(references: seq<Model>, index: map<string, Element>)
    ensures ElementDigestFault(references, index).None? <==> ElementsVerify(references, index)
  {
    if references != [] {
      ElementDigestsAreChecked(references[1..], index);
      assert references == [references[0]] + references[1..];
      if ElementsVerify(references, index) {
        assert references[0] in references;
      }
    }
  }

  lemma {:induction false} AttachmentDigestsAreChecked(references: seq<Model>, attachments: map<string, Bytes>)
    ensures AttachmentDigestFault(references, attachments).None? <==> AttachmentsVerify(references, attachments)
  {
    if references != [] {
      AttachmentDigestsAreChecked(references[1..], attachments);
      assert references == [references[0]] + references[1..];
      if AttachmentsVerify(references, attachments) {
        assert references[0] in references;
      }
    }
  }

  // ---------------------------------------------------------------- coverage

  /** Coverage depends on the set of references only. */
  lemma CoverageIgnoresOrder(a: seq<Model>, b: seq<Model>, index: map<string, Element>, hrefs: set<string>)
    requires forall r :: r in a <==> r in b
    ensures CoverageOf(a, index, hrefs) == CoverageOf(b, index, hrefs)
  {
    assert SignedPayloads(a) == SignedPayloads(b);
  }

  /** More references never cover less. */
  lemma CoverageGrows(a: seq<Model>, b: seq<Model>, index: map<string, Element>, hrefs: set<string>)
    requires forall r :: r in a ==> r in b
    ensures CoverageOf(a, index, hrefs) <= CoverageOf(b, index, hrefs)
  {
    assert SignedPayloads(a) <= SignedPayloads(b);
  }

  /** "payloads" is granted exactly when every declared href is a signed `cid:` URI. */
  lemma PayloadCoverage(references: seq<Model>, index: map<string, Element>, hrefs: set<string>)
    ensures PayloadsCovered in CoverageOf(references, index, hrefs)
       <==> forall h | h in hrefs :: IsCid(h) && exists r | r in references :: UriOf(r) == h
  {
    if forall h | h in hrefs :: IsCid(h) && exists r | r in references :: UriOf(r) == h {
      forall h | h in hrefs
        ensures h in SignedPayloads(references)
      {
        var r :| r in references && UriOf(r) == h;
      }
    }
    if hrefs <= SignedPayloads(references) {
      forall h | h in hrefs
        ensures IsCid(h) && exists r | r in references :: UriOf(r) == h
      {
        assert h in SignedPayloads(references);
      }
    }
  }

  // ---------------------------------------------------------------- the decryption loop

  /** The attachments that the reference list leads to. */
  ghost function NamedAttachments(references: seq<Model>, security: Model, attachments: map<string, Bytes>,
                                  session: SessionKey)
    : set<string>
  {
    set r | r in references && DecryptReference(r, security, attachments, session).Ok? ::
      DecryptReference(r, security, attachments, session).value.id
  }

  lemma DecryptedAlone(reference: Model, security: Model, attachments: map<string, Bytes>, session: SessionKey)
    requires DecryptReference(reference, security, attachments, session).Ok?
    ensures var found := DecryptReference(reference, security, attachments, session).value;
            found.id in attachments && Open(session, attachments[found.id]) == Some(found.content)
  {
  }

  /** Decryption succeeds exactly when each reference does, and then holds exactly the named
      attachments, each with the decryption of its own ciphertext. */
  lemma DecryptionIsExact(references: seq<Model>, security: Model, attachments: map<string, Bytes>, session: SessionKey)
    ensures var r := DecryptReferences(references, security, attachments, session, map[]);
            && (r.Ok? <==> forall x | x in references :: DecryptReference(x, security, attachments, session).Ok?)
            && (r.Ok? ==>
                  && r.value.Keys == NamedAttachments(references, security, attachments, session)
                  && forall id | id in r.value :: id in attachments
                       && Open(session, attachments[id]) == Some(r.value[id]))
  {
    DecryptionFrom(references, security, attachments, session, map[]);
  }

  /** The contents found so far are decryptions of their own attachments. */
  ghost predicate OwnDecryptions(decrypted: map<string, Bytes>, attachments: map<string, Bytes>, session: SessionKey) {
    forall id | id in decrypted :: id in attachments && Open(session, attachments[id]) == Some(decrypted[id])
  }

  lemma {:induction false} DecryptionFrom(references: seq<Model>, security: Model, attachments: map<string, Bytes>,
                                          session: SessionKey, decrypted: map<string, Bytes>)
    requires OwnDecryptions(decrypted, attachments, session)
    ensures var r := DecryptReferences(references, security, attachments, session, decrypted);
            && (r.Ok? <==> forall x | x in references :: DecryptReference(x, security, attachments, session).Ok?)
            && (r.Ok? ==>
                  && r.value.Keys == decrypted.Keys + NamedAttachments(references, security, attachments, session)
                  && OwnDecryptions(r.value, attachments, session))
    decreases |references|
  {
    if references != [] {
      var first, rest := references[0], references[1..];
      assert references == [first] + rest;
      var found := DecryptReference(first, security, attachments, session);
      if found.Ok? {
        DecryptedAlone(first, security, attachments, session);
        DecryptionFrom(rest, security, attachments, session, decrypted[found.value.id := found.value.content]);
        assert NamedAttachments(references, security, attachments, session)
            == {found.value.id} + NamedAttachments(rest, security, attachments, session);
      } else {
        assert first in references;
      }
    }
  }

  lemma OwnDecryptionsAreUnique(x: map<string, Bytes>,
                                y: map<string, Bytes>, attachments: map<string, Bytes>, session: SessionKey)
    requires OwnDecryptions(x, attachments, session) && OwnDecryptions(y, attachments, session) && x.Keys == y.Keys
    ensures x == y
  {
  }

  /** Success does not depend on the order or the repetition of references, nor do the attachments named. */
  lemma SameReferencesDecrypt(a: seq<Model>, b: seq<Model>, security: Model, attachments: map<string, Bytes>,
                              session: SessionKey)
    requires forall r :: r in a <==> r in b
    ensures NamedAttachments(a, security, attachments, session) == NamedAttachments(b, security, attachments, session)
    ensures (forall x | x in a :: DecryptReference(x, security, attachments, session).Ok?)
       <==> (forall x | x in b :: DecryptReference(x, security, attachments, session).Ok?)
  {
  }

  /** Neither the order nor the repetition of data references matters. */
  lemma DecryptionIgnoresOrder(a: seq<Model>, b: seq<Model>, security: Model, attachments: map<string, Bytes>,
                               session: SessionKey)
    requires forall r :: r in a <==> r in b
    requires DecryptReferences(a, security, attachments, session, map[]).Ok?
    ensures DecryptReferences(b, security, attachments, session, map[])
         == DecryptReferences(a, security, attachments, session, map[])
  {
    DecryptionIsExact(a, security, attachments, session);
    DecryptionIsExact(b, security, attachments, session);
    SameReferencesDecrypt(a, b, security, attachments, session);
    OwnDecryptionsAreUnique(DecryptReferences(a, security, attachments, session, map[]).value,
                            DecryptReferences(b, security, attachments, session, map[]).value, attachments, session);
  }

  // ---------------------------------------------------------------- the decompression loop

  /** The parts that name an attachment, in order. */
  function PartsNaming(parts: seq<Model>, id: string): seq<Model> {
    if parts == [] then []
    else if HrefOf(parts[0]) != "" && WithoutCid(HrefOf(parts[0])) == id then [parts[0]] + PartsNaming(parts[1..], id)
    else PartsNaming(parts[1..], id)
  }

  /** Decompressing one content once for each of the parts. */
  function Repeatedly(parts: seq<Model>, content: Bytes, maximumSize: nat,
                      sizeOf: Bytes -> nat): Result<Bytes, Refusal> {
    if parts == [] then Ok(content)
    else
      var once :- Decompress(parts[0], content, maximumSize, sizeOf);
      Repeatedly(parts[1..], once, maximumSize, sizeOf)
  }

  lemma RepeatedOnceMore(part: Model, rest: seq<Model>, content: Bytes, maximumSize: nat, sizeOf: Bytes -> nat)
    requires Decompress(part, content, maximumSize, sizeOf).Ok?
    ensures Repeatedly([part] + rest, content, maximumSize, sizeOf)
         == Repeatedly(rest, Decompress(part, content, maximumSize, sizeOf).value, maximumSize, sizeOf)
  {
    assert ([part] + rest)[1..] == rest;
  }

  /** When the part loop succeeds, every decrypted attachment has been decompressed once for each
      part that names it, in order, and by no other part; every declared part has a MIME part. */
  lemma {:induction false} DecompressionPerAttachment(parts: seq<Model>, attachments: map<string, Bytes>,
                                                      data: map<string, Bytes>, maximumSize: nat, sizeOf: Bytes -> nat)
    requires DecompressParts(parts, attachments, data, maximumSize, sizeOf).fault.None?
    ensures var r := DecompressParts(parts, attachments, data, maximumSize, sizeOf).data;
            && r.Keys == data.Keys
            && (forall id | id in data ::
                  Repeatedly(PartsNaming(parts, id), data[id], maximumSize, sizeOf) == Ok(r[id]))
            && (forall p | p in parts :: HrefOf(p) != "" ==> WithoutCid(HrefOf(p)) in attachments)
    decreases |parts|
  {
    if parts != [] {
      var part, rest := parts[0], parts[1..];
      assert parts == [part] + rest;
      var id := WithoutCid(HrefOf(part));
      if HrefOf(part) == "" || id !in data {
        DecompressionPerAttachment(rest, attachments, data, maximumSize, sizeOf);
        forall x | x in data
          ensures PartsNaming(parts, x) == PartsNaming(rest, x)
        {
        }
      } else {
        var once := Decompress(part, data[id], maximumSize, sizeOf).value;
        DecompressionPerAttachment(rest, attachments, data[id := once], maximumSize, sizeOf);
        RepeatedOnceMore(part, PartsNaming(rest, id), data[id], maximumSize, sizeOf);
      }
    }
  }

  lemma {:induction false} NamedPartIsListed(parts: seq<Model>, id: string)
    ensures forall p :: p in PartsNaming(parts, id) <==> p in parts && HrefOf(p) != "" && WithoutCid(HrefOf(p)) == id
  {
    if parts != [] {
      assert parts == [parts[0]] + parts[1..];
      NamedPartIsListed(parts[1..], id);
    }
  }

  /** No two parts name one attachment. */
  predicate DistinctHrefs(parts: seq<Model>) {
    parts != [] ==>
      && (HrefOf(parts[0]) != "" ==> PartsNaming(parts[1..], WithoutCid(HrefOf(parts[0]))) == [])
      && DistinctHrefs(parts[1..])
  }

  lemma {:induction false} DistinctHrefsNameOnce(parts: seq<Model>, part: Model)
    requires DistinctHrefs(parts) && part in parts && HrefOf(part) != ""
    ensures PartsNaming(parts, WithoutCid(HrefOf(part))) == [part]
  {
    if part == parts[0] {
    } else {
      DistinctHrefsNameOnce(parts[1..], part);
    }
  }

  /** With distinct identifiers every decrypted declared part is decompressed exactly once: a gzip
      part becomes its full decompression, within the cap, any other part stays as it is; parts that
      nothing declares are untouched. */
  lemma DecompressionIsExact(parts: seq<Model>, attachments: map<string, Bytes>, data: map<string, Bytes>,
                             maximumSize: nat, sizeOf: Bytes -> nat)
    requires DistinctHrefs(parts)
    requires DecompressParts(parts, attachments, data, maximumSize, sizeOf).fault.None?
    ensures var r := DecompressParts(parts, attachments, data, maximumSize, sizeOf).data;
            && r.Keys == data.Keys
            && (forall p | p in parts && HrefOf(p) != "" && WithoutCid(HrefOf(p)) in data ::
                  var id := WithoutCid(HrefOf(p));
                  if IsGzipPart(p) then data[id] == Gzip(r[id]) && sizeOf(r[id]) <= maximumSize else r[id] == data[id])
            && (forall id | id in data ::
                  (forall p | p in parts :: HrefOf(p) == "" || WithoutCid(HrefOf(p)) != id) ==> r[id] == data[id])
  {
    DecompressionPerAttachment(parts, attachments, data, maximumSize, sizeOf);
    var r := DecompressParts(parts, attachments, data, maximumSize, sizeOf).data;
    forall p | p in parts && HrefOf(p) != "" && WithoutCid(HrefOf(p)) in data
      ensures var id := WithoutCid(HrefOf(p));
              if IsGzipPart(p) then data[id] == Gzip(r[id]) && sizeOf(r[id]) <= maximumSize else r[id] == data[id]
    {
      DistinctHrefsNameOnce(parts, p);
      assert Repeatedly([p], data[WithoutCid(HrefOf(p))], maximumSize, sizeOf)
          == Decompress(p, data[WithoutCid(HrefOf(p))], maximumSize, sizeOf);
    }
    forall id | id in data && (forall p | p in parts :: HrefOf(p) == "" || WithoutCid(HrefOf(p)) != id)
      ensures r[id] == data[id]
    {
      NamedPartIsListed(parts, id);
      assert PartsNaming(parts, id) == [] by {
        if PartsNaming(parts, id) != [] {
          assert PartsNaming(parts, id)[0] in PartsNaming(parts, id);
        }
      }
    }
  }

  // ---------------------------------------------------------------- the signature stage

  /** Everything a message with a signer certificate has passed: the resolver returned this certificate
      for eb:From and the embedded one, the signature verifies under it, the required coverage is
      there and, when the policy asks for digests, so is every element digest. Without a signer there
      is no signature, and the policy does not require one. */
  ghost predicate SignatureStage(policy: SecurityPolicy, doc: Element, envelope: Model, signer: Option<Certificate>) {
    var security := SecurityOf(envelope);
    var signature := Child(security, Signature);
    var references := ReferencesOf(signature);
    var userMessage := RequiredUserMessage(envelope);
    && IndexById(doc).Ok?
    && (signer.None? ==> OptionalChild(security, Signature).None? && !policy.signRequired)
    && (signer.Some? ==>
          && OptionalChild(security, Signature).Some?
          && userMessage.Ok?
          && SigningToken(security, signature).Some?
          && TokenContentOf(SigningToken(security, signature).value).Holds?
          && policy.resolver(Child(Child(userMessage.value, PartyInfo), From),
                             Some(TokenContentOf(SigningToken(security, signature).value).certificate))
                             == Trusted(signer.value)
          && VerifySignature(signature, SignedInfoIn(doc), signer.value) == Verified
          && policy.requiredCoverage <= CoverageOf(references, IndexById(doc).value, DeclaredHrefs(userMessage.value))
          && (policy.verifyDigests ==> ElementsVerify(references, IndexById(doc).value)))
  }

  /** The coverage and digest checks. */
  lemma ContentIsExact(policy: SecurityPolicy, references: seq<Model>, userMessage: Model, index: map<string, Element>)
    ensures ContentFault(policy, references, userMessage, index).None?
       <==> policy.requiredCoverage <= CoverageOf(references, index, DeclaredHrefs(userMessage))
            && (policy.verifyDigests ==> ElementsVerify(references, index))
  {
    ElementDigestsAreChecked(references, index);
    var covered := CoverageOf(references, index, DeclaredHrefs(userMessage));
    assert policy.requiredCoverage <= covered <==> policy.requiredCoverage - covered == {};
  }

  /** The resolver's answer. */
  lemma ResolutionIsExact(policy: SecurityPolicy, partyFrom: Model, token: Model, signer: Certificate)
    ensures ResolveSigner(policy, partyFrom, token) == Ok(signer)
       <==> TokenContentOf(token).Holds?
            && policy.resolver(partyFrom, Some(TokenContentOf(token).certificate)) == Trusted(signer)
  {
  }

  /** A signed message with a token and a user message. */
  ghost predicate SignedStage(policy: SecurityPolicy, doc: Element, signature: Model, token: Model, message: Model,
                              index: map<string, Element>, signer: Certificate)
  {
    && ResolveSigner(policy, Child(Child(message, PartyInfo), From), token) == Ok(signer)
    && VerifySignature(signature, SignedInfoIn(doc), signer) == Verified
    && ContentFault(policy, ReferencesOf(signature), message, index).None?
  }

  lemma VerdictFault(v: SignatureVerdict)
    ensures SignatureFault(v).None? <==> v == Verified
  {
  }

  lemma SignedUnderResolved(policy: SecurityPolicy, doc: Element, signature: Model, token: Model, message: Model,
                            index: map<string, Element>, resolved: Certificate)
    requires ResolveSigner(policy, Child(Child(message, PartyInfo), From), token) == Ok(resolved)
    ensures var r := SignedBy(policy, doc, signature, token, message, index);
            && (r.Ok? ==> r.value == Some(resolved))
            && (r.Ok? <==> VerifySignature(signature, SignedInfoIn(doc), resolved) == Verified
                           && ContentFault(policy, ReferencesOf(signature), message, index).None?)
  {
    VerdictFault(VerifySignature(signature, SignedInfoIn(doc), resolved));
  }

  lemma SignedByIsExact(policy: SecurityPolicy, doc: Element, signature: Model, token: Model, message: Model,
                        index: map<string, Element>, signer: Option<Certificate>)
    ensures SignedBy(policy, doc, signature, token, message, index) == Ok(signer)
       <==> signer.Some? && SignedStage(policy, doc, signature, token, message, index, signer.value)
  {
    var resolved := ResolveSigner(policy, Child(Child(message, PartyInfo), From), token);
    if resolved.Ok? {
      SignedUnderResolved(policy, doc, signature, token, message, index, resolved.value);
    }
  }

  lemma SignedBranch(policy: SecurityPolicy, doc: Element, envelope: Model, index: map<string, Element>, token: Model,
                     message: Model)
    requires OptionalChild(SecurityOf(envelope), Signature).Some?
    requires SigningToken(SecurityOf(envelope), Child(SecurityOf(envelope), Signature)) == Some(token)
    requires RequiredUserMessage(envelope) == Ok(message)
    ensures VerifiedSigner(policy, doc, envelope, index)
         == SignedBy(policy, doc, Child(SecurityOf(envelope), Signature), token, message, index)
  {
  }

  lemma RefusedBranches(policy: SecurityPolicy, doc: Element, envelope: Model, index: map<string, Element>)
    requires OptionalChild(SecurityOf(envelope), Signature).Some?
    requires SigningToken(SecurityOf(envelope), Child(SecurityOf(envelope), Signature)).None?
             || RequiredUserMessage(envelope).Err?
    ensures VerifiedSigner(policy, doc, envelope, index).Err?
  {
  }

  lemma UnsignedBranch(policy: SecurityPolicy, doc: Element, envelope: Model, index: map<string, Element>,
                       signer: Option<Certificate>)
    requires OptionalChild(SecurityOf(envelope), Signature).None?
    ensures VerifiedSigner(policy, doc, envelope, index) == Ok(signer) <==> signer.None? && !policy.signRequired
  {
  }

  lemma SignedStageIsExact(policy: SecurityPolicy, doc: Element, envelope: Model, token: Model, message: Model,
                           signer: Certificate)
    requires IndexById(doc).Ok? && OptionalChild(SecurityOf(envelope), Signature).Some?
    requires SigningToken(SecurityOf(envelope), Child(SecurityOf(envelope), Signature)) == Some(token)
    requires RequiredUserMessage(envelope) == Ok(message)
    ensures SignedStage(policy, doc, Child(SecurityOf(envelope), Signature), token, message, IndexById(doc).value,
                        signer)
       <==> SignatureStage(policy, doc, envelope, Some(signer))
  {
    ResolutionIsExact(policy, Child(Child(message, PartyInfo), From), token, signer);
    ContentIsExact(policy, ReferencesOf(Child(SecurityOf(envelope), Signature)), message, IndexById(doc).value);
  }

  lemma SignatureStageIsExact(policy: SecurityPolicy, doc: Element, envelope: Model, signer: Option<Certificate>)
    requires IndexById(doc).Ok?
    ensures VerifiedSigner(policy, doc, envelope, IndexById(doc).value) == Ok(signer)
       <==> SignatureStage(policy, doc, envelope, signer)
  {
    var index := IndexById(doc).value;
    var token := SigningToken(SecurityOf(envelope), Child(SecurityOf(envelope), Signature));
    var message := RequiredUserMessage(envelope);
    if OptionalChild(SecurityOf(envelope), Signature).None? {
      UnsignedBranch(policy, doc, envelope, index, signer);
    } else if token.None? || message.Err? {
      RefusedBranches(policy, doc, envelope, index);
    } else {
      SignedBranch(policy, doc, envelope, index, token.value, message.value);
      SignedByIsExact(policy, doc, Child(SecurityOf(envelope), Signature), token.value, message.value, index, signer);
      if signer.Some? {
        SignedStageIsExact(policy, doc, envelope, token.value, message.value, signer.value);
      }
    }
  }

  // ---------------------------------------------------------------- staged results

  /** The fields a progress has are those of a prefix of the pipeline. */
  ghost predicate Staged(c: Context, w: Wire, m: Message) {
    && (m.addressedTo.Some? ==> w.soap.Xml? && IdentifiedFrom(w.soap.root, m))
    && (m.envelope.Some? ==>
          && m.addressedTo.Some?
          && w.soap.Xml?
          && m.attachments == w.attachments
          && Load(ENVELOPE, w.soap.root) == Ok(m.envelope.value))
    && (m.signer.Some? ==> m.envelope.Some? && SignatureStage(c.policy, w.soap.root, m.envelope.value, m.signer))
    && (m.decrypted != map[] ==> m.envelope.Some? && SignatureStage(c.policy, w.soap.root, m.envelope.value, m.signer))
    && (m.sender.Some? ==> m.envelope.Some? && CoreComplete(c, w, m))
    && (m.sender.Some? <==> m.recipient.Some?)
    && (m.documentType.Some? ==> m.sender.Some?)
    && (m.documentType.Some? <==> m.documentScheme.Some?)
    && (m.documentType.Some? <==> m.process.Some?)
  }

  /** The core pipeline has been passed: attachments decrypted, their digests verified while still
      compressed, and every declared part decompressed. */
  ghost predicate CoreComplete(c: Context, w: Wire, m: Message)
    requires m.envelope.Some?
  {
    var security := SecurityOf(m.envelope.value);
    var userMessage := RequiredUserMessage(m.envelope.value);
    var compressed := DecryptedData(c.policy, c.key, security, w.attachments.parts);
    && w.soap.Xml?
    && Load(ENVELOPE, w.soap.root) == Ok(m.envelope.value)
    && SignatureStage(c.policy, w.soap.root, m.envelope.value, m.signer)
    && compressed.Ok?
    && (m.signer.Some? && c.policy.verifyDigests ==> AttachmentsVerify(SignatureReferences(m), compressed.value))
    && userMessage.Ok?
    && OptionalChild(userMessage.value, PayloadInfo).Some?
    && DecompressParts(PartInfos(userMessage.value), w.attachments.parts, compressed.value, c.policy.maximumSize,
                       c.sizeOf)
       == Decompressed(m.decrypted, None)
  }

  predicate Identified(m: Message) {
    m.messageId != Plain("") && m.messagingId != "" && m.addressedTo.Some?
  }

  /** The identifiers and the addressee are those of the document. */
  predicate IdentifiedFrom(doc: Element, m: Message) {
    && ReadIds(doc) == Ok((m.messageId, m.messagingId))
    && m.addressedTo.Some?
    && AddressedTo(doc) == Ok(m.addressedTo.value)
  }

  lemma IdentifyFacts(doc: Element)
    ensures var r := Identify(doc, Progress(NO_FIELDS, []));
            && r.progress.asked == []
            && (r.Continue? ==> Identified(r.progress.fields) && IdentifiedFrom(doc, r.progress.fields))
            && (r.Stop? ==> r.progress.fields.addressedTo.None? && r.fault.Refused?)
            && r.progress.fields == NO_FIELDS.(messageId := r.progress.fields.messageId,
                                               messagingId := r.progress.fields.messagingId,
                                               addressedTo := r.progress.fields.addressedTo)
  {
  }

  /** The messages that authentication ends with, successful or not. */
  lemma AuthenticateFacts(c: Context, doc: Element, attachments: Attachments, p: Progress)
    requires p.fields.signer.None? && p.fields.envelope.None?
    ensures var r := Authenticate(c, doc, attachments, p);
            && r.progress.asked == p.asked
            && r.progress.fields == p.fields.(attachments := attachments,
                                              envelope := r.progress.fields.envelope,
                                              signer := r.progress.fields.signer)
            && (r.progress.fields.envelope.Some? ==> Load(ENVELOPE, doc) == Ok(r.progress.fields.envelope.value))
            && (r.Stop? ==> r.progress.fields.signer.None?)
            && (r.Continue? ==> SignatureStage(c.policy, doc, r.progress.fields.envelope.value,
                                               r.progress.fields.signer))
  {
    var envelope := Load(ENVELOPE, doc);
    var index := IndexById(doc);
    if envelope.Ok? && index.Ok? {
      var signer := VerifiedSigner(c.policy, doc, envelope.value, index.value);
      if signer.Ok? {
        SignatureStageIsExact(c.policy, doc, envelope.value, signer.value);
      }
    }
  }

  lemma DecryptFacts(c: Context, p: Progress)
    requires p.fields.envelope.Some?
    ensures var r := Decrypt(c, p);
            && r.progress.asked == p.asked
            && r.progress.fields == p.fields.(decrypted := r.progress.fields.decrypted)
            && (r.Stop? ==> r.fault.Refused?)
            && (r.Continue? ==>
                  && DecryptedData(c.policy, c.key, SecurityOf(p.fields.envelope.value), p.fields.attachments.parts)
                     == Ok(r.progress.fields.decrypted)
                  && (OptionalChild(SecurityOf(p.fields.envelope.value), Signature).Some? && c.policy.verifyDigests ==>
                        AttachmentsVerify(SignatureReferences(p.fields), r.progress.fields.decrypted)))
  {
    var data := DecryptedData(c.policy, c.key, SecurityOf(p.fields.envelope.value), p.fields.attachments.parts);
    if data.Ok? {
      AttachmentDigestsAreChecked(SignatureReferences(p.fields), data.value);
    }
  }

  lemma UnpackFacts(c: Context, p: Progress)
    requires p.fields.envelope.Some?
    ensures var r := Unpack(c, p);
            && r.progress.asked == p.asked
            && r.progress.fields == p.fields.(decrypted := r.progress.fields.decrypted)
            && (r.Stop? ==> r.fault.Refused?)
            && (r.Continue? ==>
                  var userMessage := RequiredUserMessage(p.fields.envelope.value);
                  && userMessage.Ok?
                  && OptionalChild(userMessage.value, PayloadInfo).Some?
                  && DecompressParts(PartInfos(userMessage.value), p.fields.attachments.parts, p.fields.decrypted,
                                     c.policy.maximumSize, c.sizeOf)
                     == Decompressed(r.progress.fields.decrypted, None))
  {
  }

  /** The core pipeline from identified fields: what it leaves alone, and what it has established. */
  lemma CoreProcessFacts(c: Context, w: Wire, p: Progress)
    requires w.soap.Xml? && IdentifiedFrom(w.soap.root, p.fields)
    requires p.fields == NO_FIELDS.(messageId := p.fields.messageId, messagingId := p.fields.messagingId,
                                    addressedTo := p.fields.addressedTo)
    ensures var r := CoreProcess(c, w.soap.root, w.attachments, p);
            && r.progress.asked == p.asked
            && Staged(c, w, r.progress.fields)
            && r.progress.fields.messageId == p.fields.messageId
            && r.progress.fields.messagingId == p.fields.messagingId
            && r.progress.fields.sender.None? && r.progress.fields.documentType.None?
            && r.progress.fields.error.None?
            && (r.Continue? ==> CoreComplete(c, w, r.progress.fields))
  {
    AuthenticateFacts(c, w.soap.root, w.attachments, p);
    var r1 := Authenticate(c, w.soap.root, w.attachments, p);
    if r1.Continue? {
      DecryptFacts(c, r1.progress);
      var r2 := Decrypt(c, r1.progress);
      if r2.Continue? {
        UnpackFacts(c, r2.progress);
      }
    }
  }

  lemma ReadScopesFacts(header: Model, p: Progress)
    ensures var r := ReadScopes(header, p);
            && r.progress.asked == p.asked
            && r.progress.fields == p.fields.(documentType := r.progress.fields.documentType,
                                              documentScheme := r.progress.fields.documentScheme,
                                              process := r.progress.fields.process)
            && (r.Stop? ==> r.fault.Refused? && r.progress == p)
            && (r.Continue? ==> r.progress.fields.documentType.Some? && r.progress.fields.documentScheme.Some?
                                && r.progress.fields.process.Some?)
  {
  }

  lemma RouteFacts(c: Context, userMessage: Model, header: Model, p: Progress)
    requires p.fields.documentType.None? && p.fields.documentScheme.None? && p.fields.process.None?
    ensures var r := Route(c, userMessage, header, p);
            && r.progress.fields == p.fields.(sender := r.progress.fields.sender,
                                              recipient := r.progress.fields.recipient,
                                              documentType := r.progress.fields.documentType,
                                              documentScheme := r.progress.fields.documentScheme,
                                              process := r.progress.fields.process)
            && r.progress.fields.sender.Some?
            && r.progress.fields.recipient == Some(TextOf(ParticipantOf(header, Receiver)))
            && (r.progress.fields.documentType.Some? <==> r.progress.fields.documentScheme.Some?)
            && (r.progress.fields.documentType.Some? <==> r.progress.fields.process.Some?)
            && (r.Continue? ==> r.progress.fields.process.Some?)
            && (r.progress.asked == p.asked
                || (c.acceptor.Some?
                    && r.progress.asked == p.asked + [TextOf(ParticipantOf(header, Receiver))]
                    && (c.policy.verifyParticipants ==> ParticipantsAgree(userMessage, header))))
  {
    var recipient := TextOf(ParticipantOf(header, Receiver));
    var routed := p.(fields := p.fields.(sender := Some(TextOf(ParticipantOf(header, Sender))),
                                         recipient := Some(recipient)));
    var accepted := Ask(c, recipient, routed);
    if accepted.Continue? {
      ReadScopesFacts(header, accepted.progress);
    }
  }

  /** The Peppol checks before the acceptor: party types, schema, and that the header's finalRecipient
      property equals the recipient in value and scheme when the policy verifies participants. */
  ghost predicate RoutingAllows(c: Context, m: Message, recipient: Text)
    requires m.envelope.Some?
  {
    var userMessage := RequiredUserMessage(m.envelope.value);
    var header := if FirstPayload(m).Some? then BusinessHeader(c, FirstPayload(m).value) else None;
    && c.acceptor.Some?
    && userMessage.Ok?
    && PartiesArePeppol(userMessage.value)
    && header.Some?
    && recipient == TextOf(ParticipantOf(header.value, Receiver))
    && (c.policy.verifyParticipants ==> Names(userMessage.value, FINAL_RECIPIENT,
                                              ParticipantOf(header.value, Receiver)))
  }

  /** What must have been established before the acceptor is asked about a recipient: the whole core
      pipeline, then the Peppol checks. */
  ghost predicate MayAsk(c: Context, w: Wire, recipient: Text) {
    w.soap.Xml? &&
    var p1 := Identify(w.soap.root, Progress(NO_FIELDS, []));
    p1.Continue? &&
    var p2 := CoreProcess(c, w.soap.root, w.attachments, p1.progress);
    p2.Continue? && CoreComplete(c, w, p2.progress.fields) && RoutingAllows(c, p2.progress.fields, recipient)
  }

  lemma RoutingAsks(c: Context, p: Progress)
    requires p.fields.envelope.Some? && p.fields.documentType.None? && p.fields.documentScheme.None?
    requires p.fields.process.None?
    ensures var r := ProcessSbdh(c, p);
            r.progress.asked == p.asked
            || exists recipient :: r.progress.asked == p.asked + [recipient] && RoutingAllows(c, p.fields, recipient)
  {
    var userMessage := RequiredUserMessage(p.fields.envelope.value);
    var payload := FirstPayload(p.fields);
    if userMessage.Ok? && PartiesArePeppol(userMessage.value) && payload.Some?
       && BusinessHeader(c, payload.value).Some? {
      var header := BusinessHeader(c, payload.value).value;
      RouteFacts(c, userMessage.value, header, p);
      if ProcessSbdh(c, p).progress.asked != p.asked {
        assert RoutingAllows(c, p.fields, TextOf(ParticipantOf(header, Receiver)));
      }
    }
  }

  /** A recipient the pipeline may ask about, or no question at all. */
  ghost predicate AskedProperly(c: Context, w: Wire, asked: seq<Text>) {
    asked == [] || (|asked| == 1 && MayAsk(c, w, asked[0]))
  }

  lemma PipelineAsks(c: Context, w: Wire)
    requires w.soap.Xml?
    requires Identify(w.soap.root, Progress(NO_FIELDS, [])).Continue?
    ensures AskedProperly(c, w, Pipeline(c, w).progress.asked)
  {
    IdentifyFacts(w.soap.root);
    var p1 := Identify(w.soap.root, Progress(NO_FIELDS, [])).progress;
    CoreProcessFacts(c, w, p1);
    var r2 := CoreProcess(c, w.soap.root, w.attachments, p1);
    if r2.Continue? {
      assert Pipeline(c, w) == ProcessSbdh(c, r2.progress);
      CoreLeavesRouting(c, w, p1);
      RoutingAsks(c, r2.progress);
      assert forall recipient :: RoutingAllows(c, r2.progress.fields, recipient) ==> MayAsk(c, w, recipient);
    } else {
      assert Pipeline(c, w) == r2;
    }
  }

  lemma CoreLeavesRouting(c: Context, w: Wire, p: Progress)
    requires w.soap.Xml? && IdentifiedFrom(w.soap.root, p.fields)
    requires p.fields == NO_FIELDS.(messageId := p.fields.messageId, messagingId := p.fields.messagingId,
                                    addressedTo := p.fields.addressedTo)
    ensures var m := CoreProcess(c, w.soap.root, w.attachments, p).progress.fields;
            m.documentType.None? && m.documentScheme.None? && m.process.None?
  {
    CoreProcessFacts(c, w, p);
  }

  /** In every parse the acceptor is asked at most once, and only when it may be. */
  lemma AcceptorIsAskedLast(c: Context, w: Wire)
    ensures AskedProperly(c, w, Parse(c, w).asked)
  {
    if w.soap.Xml? {
      IdentifyFacts(w.soap.root);
      if Identify(w.soap.root, Progress(NO_FIELDS, [])).Continue? {
        PipelineAsks(c, w);
      }
    }
  }

  lemma StagedAfterRouting(c: Context, w: Wire, m: Message, r: Message)
    requires Staged(c, w, m) && m.envelope.Some? && CoreComplete(c, w, m)
    requires r == m.(sender := r.sender, recipient := r.recipient, documentType := r.documentType,
                     documentScheme := r.documentScheme, process := r.process)
    requires r.sender.Some? && r.recipient.Some?
    requires r.documentType.Some? <==> r.documentScheme.Some?
    requires r.documentType.Some? <==> r.process.Some?
    ensures Staged(c, w, r)
  {
    assert SignatureReferences(r) == SignatureReferences(m);
  }

  /** Whatever parsing returns, its fields are those of a prefix of the pipeline; without an error they
      are those of the whole pipeline. */
  lemma ResultsAreStaged(c: Context, w: Wire)
    requires Parse(c, w).Returned?
    ensures Staged(c, w, Parse(c, w).message)
    ensures Parse(c, w).message.error.None? ==> Parse(c, w).message.process.Some? && Identified(Parse(c, w).message)
  {
    if w.soap.Xml? {
      IdentifyFacts(w.soap.root);
      var r1 := Identify(w.soap.root, Progress(NO_FIELDS, []));
      if r1.Continue? {
        CoreProcessFacts(c, w, r1.progress);
        var r2 := CoreProcess(c, w.soap.root, w.attachments, r1.progress);
        StagedIgnoresError(c, w, r2.progress.fields, Parse(c, w).message.error);
        if r2.Continue? {
          RoutingIsStaged(c, w, r2.progress, Parse(c, w).message.error);
        }
      }
    }
  }

  lemma StagedIgnoresError(c: Context, w: Wire, m: Message, error: Option<Refusal>)
    requires Staged(c, w, m)
    ensures Staged(c, w, m.(error := error))
  {
    assert SignatureReferences(m.(error := error)) == SignatureReferences(m);
  }

  lemma RoutingIsStaged(c: Context, w: Wire, p: Progress, error: Option<Refusal>)
    requires p.fields.envelope.Some? && CoreComplete(c, w, p.fields) && Staged(c, w, p.fields)
    requires p.fields.documentType.None?
    ensures Staged(c, w, ProcessSbdh(c, p).progress.fields.(error := error))
    ensures ProcessSbdh(c, p).Continue? ==> ProcessSbdh(c, p).progress.fields.process.Some?
    ensures SameHeader(ProcessSbdh(c, p).progress.fields, p.fields)
  {
    StagedIgnoresError(c, w, p.fields, error);
    var userMessage := RequiredUserMessage(p.fields.envelope.value);
    var payload := FirstPayload(p.fields);
    if userMessage.Ok? && PartiesArePeppol(userMessage.value) && payload.Some?
       && BusinessHeader(c, payload.value).Some? {
      RouteIsStaged(c, w, userMessage.value, BusinessHeader(c, payload.value).value, p, error);
    }
  }

  lemma RoutingReadsThePayload(c: Context, p: Progress)
    requires p.fields.envelope.Some? && ProcessSbdh(c, p).Continue?
    requires p.fields.documentType.None? && p.fields.documentScheme.None? && p.fields.process.None?
    ensures FirstPayload(p.fields).Some? && BusinessHeader(c, FirstPayload(p.fields).value).Some?
    ensures ProcessSbdh(c, p).progress.fields.attachments == p.fields.attachments
    ensures ProcessSbdh(c, p).progress.fields.decrypted == p.fields.decrypted
  {
    var header := BusinessHeader(c, FirstPayload(p.fields).value).value;
    RouteFacts(c, RequiredUserMessage(p.fields.envelope.value).value, header, p);
  }

  /** Routing leaves the identification alone. */
  predicate SameHeader(m: Message, n: Message) {
    m.messageId == n.messageId && m.messagingId == n.messagingId && m.addressedTo == n.addressedTo
  }

  lemma RouteIsStaged(c: Context, w: Wire, message: Model, header: Model, p: Progress, error: Option<Refusal>)
    requires p.fields.envelope.Some? && CoreComplete(c, w, p.fields) && Staged(c, w, p.fields)
    requires p.fields.documentType.None?
    ensures Staged(c, w, Route(c, message, header, p).progress.fields.(error := error))
    ensures Route(c, message, header, p).Continue? ==> Route(c, message, header, p).progress.fields.process.Some?
    ensures SameHeader(Route(c, message, header, p).progress.fields, p.fields)
  {
    RouteFacts(c, message, header, p);
    var routed := Route(c, message, header, p).progress.fields;
    StagedAfterRouting(c, w, p.fields, routed);
    StagedIgnoresError(c, w, routed, error);
  }

  // ---------------------------------------------------------------- sound acceptance

  /** A declared payload of an accepted message: its href is a `cid:` URI that the signature references,
      and that reference verifies on the decrypted, still compressed attachment. */
  ghost predicate PayloadVerified(c: Context, m: Message, href: string)
    requires m.envelope.Some?
  {
    var id := WithoutCid(href);
    var compressed := DecryptedData(c.policy, c.key, SecurityOf(m.envelope.value), m.attachments.parts);
    && IsCid(href)
    && id in m.attachments.parts
    && compressed.Ok?
    && id in compressed.value
    && exists r | r in SignatureReferences(m) :: UriOf(r) == href
         && BytesDigestMatches(r, compressed.value[id]) == Matches
  }

  /** Under the default policy, with a resolver set, a parse without an error establishes the signature
      under the resolved certificate, the coverage of Messaging and Body, every element digest, and
      every declared payload. */
  lemma AcceptanceIsSound(c: Context, w: Wire)
    requires Parse(c, w).Returned? && Parse(c, w).message.error.None?
    requires c.policy.signRequired && c.policy.verifyDigests
    requires {MessagingCovered, BodyCovered, PayloadsCovered} <= c.policy.requiredCoverage
    ensures var m := Parse(c, w).message;
            && w.soap.Xml? && m.envelope.Some? && m.signer.Some?
            && m.attachments == w.attachments
            && SignatureStage(c.policy, w.soap.root, m.envelope.value, m.signer)
            && CoversTag(SignatureReferences(m), IndexById(w.soap.root).value, Messaging)
            && CoversTag(SignatureReferences(m), IndexById(w.soap.root).value, Body)
            && ElementsVerify(SignatureReferences(m), IndexById(w.soap.root).value)
            && RequiredUserMessage(m.envelope.value).Ok?
            && forall href | href in DeclaredHrefs(RequiredUserMessage(m.envelope.value).value) ::
              PayloadVerified(c, m, href)
  {
    ResultsAreStaged(c, w);
    var m := Parse(c, w).message;
    var references := SignatureReferences(m);
    var hrefs := DeclaredHrefs(RequiredUserMessage(m.envelope.value).value);
    CoveredTags(references, IndexById(w.soap.root).value, hrefs, c.policy.requiredCoverage);
    PayloadCoverage(references, IndexById(w.soap.root).value, hrefs);
    var compressed := DecryptedData(c.policy, c.key, SecurityOf(m.envelope.value), m.attachments.parts).value;
    forall href | href in hrefs
      ensures PayloadVerified(c, m, href)
    {
      var r :| r in references && UriOf(r) == href;
      assert BytesDigestMatches(r, compressed[WithoutCid(UriOf(r))]) == Matches;
      DecryptedIsAttached(c, m);
    }
  }

  lemma CoveredTags(references: seq<Model>, index: map<string, Element>, hrefs: set<string>, required: set<Coverage>)
    requires required <= CoverageOf(references, index, hrefs)
    ensures MessagingCovered in required ==> CoversTag(references, index, Messaging)
    ensures BodyCovered in required ==> CoversTag(references, index, Body)
    ensures PayloadsCovered in required ==> PayloadsCovered in CoverageOf(references, index, hrefs)
  {
  }

  lemma DecryptedIsAttached(c: Context, m: Message)
    requires m.envelope.Some?
    ensures var r := DecryptedData(c.policy, c.key, SecurityOf(m.envelope.value), m.attachments.parts);
            r.Ok? ==> r.value.Keys <= m.attachments.parts.Keys
  {
    var security := SecurityOf(m.envelope.value);
    var session := SessionKeyOf(security, c.key);
    if session.Ok? {
      DecryptionIsExact(DataReferences(security), security, m.attachments.parts, session.value);
    }
  }
}
