/** Parsing an honest message yields what was built (as4/core/message.py, as4/profiles/peppol/message.py). */
module HonestParse {
  import opened Terms
  import opened XmlMapping
  import opened Schemas
  import opened Documents
  import opened Dsig
  import opened Errors
  import opened Messages
  import opened DocumentIdentifier
  import opened Peppol
  import opened Receipts
  import opened Builder
  import opened Envelopes
  import opened Acceptance
  import opened Agreement
  import opened Completeness
  import opened Construction
  import opened Readable
  import opened HonestMessages
  import opened HonestDocuments
  import opened HonestSecurity

  // ---------------------------------------------------------------- honest input

  /** A payload, parties and arguments that the builder is meant for. */
  predicate PreparedContent(i: BuildInput) {
    && Buildable(i) && HonestHeader(i) && HonestIds(i.ids)
    && TidyString(RootName(i.arguments.documentType).value)
    && i.local.credentials.certificate.rsa && i.local.credentials.certificate.key == i.local.credentials.key
  }

  /** Such content, with a payload that is not itself a routing header. */
  predicate HonestContent(i: BuildInput) {
    PreparedContent(i) && ParseXml(i.payload).value.tag != StandardBusinessDocumentHeader
  }

  /** Prepared content, whose document has distinct identifiers. */
  ghost predicate PreparedInput(i: BuildInput) {
    PreparedContent(i) && DistinctIds(IdAttributes(UserDocument(i)))
  }

  /** Such content, whose document has distinct identifiers. */
  ghost predicate HonestInput(i: BuildInput) {
    HonestContent(i) && DistinctIds(IdAttributes(UserDocument(i)))
  }

  function UserDocument(i: BuildInput): Element
    requires Buildable(i) && i.ids.attachments != []
  {
    Dump(ENVELOPE, Envelope, UserEnvelope(i))
  }

  function BuiltReferencesOf(i: BuildInput): seq<Model>
    requires Buildable(i) && i.ids.attachments != []
  {
    UserReferences(i, AttachmentIdOf(i), Gzip(Delivered(i)))
  }

  function RoutingHeaderOf(i: BuildInput): Model
    requires Buildable(i)
  {
    BusinessHeaderModel(i.arguments, RootName(i.arguments.documentType).value, i.now)
  }

  /** A receiver that holds the recipient's key, trusts the sender, asks for no more coverage than there is,
      allows the payload's size, and services the recipient. */
  ghost predicate Welcomes(c: Context, i: BuildInput)
    requires Buildable(i)
  {
    var own := i.local.credentials.certificate;
    && c.key == i.remote.certificate.key
    && c.policy.resolver(PartyModel(i.local.identity, INITIATOR), Some(own)) == Trusted(own)
    && c.policy.requiredCoverage <= {MessagingCovered, BodyCovered, PayloadsCovered}
    && c.sizeOf(Delivered(i)) <= c.policy.maximumSize
    && c.schemaValid(RoutingHeaderElement(i.arguments, RootName(i.arguments.documentType).value, i.now))
    && (c.acceptor.Some? ==> c.acceptor.value(Plain(i.arguments.recipient)) == Accepted)
  }

  // ---------------------------------------------------------------- the envelope

  lemma UserDocumentIs(i: BuildInput)
    requires Buildable(i) && i.ids.attachments != []
    ensures UserDocument(i) == EnvelopeElement(UserSecurityModel(i, BuiltReferencesOf(i)), UserMessagingModel(i), i.ids)
  {
  }

  lemma WellFormedIsComplete(s: Schema, m: Model)
    requires DistinctAliases(s) && WellFormed(s, m)
    ensures Complete(s, m)
  {
    RoundTrip(s, ForeignTag(""), m);
    LoadDumpIsExact(s, ForeignTag(""), m);
  }

  /** An envelope with the security header of one input and the header block of another. */
  ghost predicate CarriedEnvelope(i: BuildInput, j: BuildInput, envelope: Model)
    requires Buildable(i) && i.ids.attachments != []
  {
    && SecurityOf(envelope) == Norm(SECURITY, UserSecurityModel(i, BuiltReferencesOf(i)))
    && MessagingOf(envelope) == UserMessagingModel(j)
  }

  /** What the receiver of an honest message loads. */
  ghost predicate HonestEnvelope(i: BuildInput, envelope: Model)
    requires Buildable(i) && i.ids.attachments != []
  {
    CarriedEnvelope(i, i, envelope)
  }

  lemma UserDocumentLoads(i: BuildInput) returns (envelope: Model)
    requires PreparedInput(i)
    ensures Load(ENVELOPE, UserDocument(i)) == Ok(envelope) && HonestEnvelope(i, envelope)
  {
    var security, messaging := UserSecurityModel(i, BuiltReferencesOf(i)), UserMessagingModel(i);
    UserMessagingIsWellFormed(i);
    MessagingAliases();
    WellFormedIsComplete(MESSAGING, messaging);
    WellFormedNorm(MESSAGING, messaging);
    UserReferencesAreComplete(i, Gzip(Delivered(i)));
    UserSecurityIsComplete(i, BuiltReferencesOf(i));
    envelope := BuiltEnvelopeLoads(security, messaging, i.ids);
    UserDocumentIs(i);
  }

  lemma BuiltEnvelopeLoads(security: Model, messaging: Model, ids: References) returns (envelope: Model)
    requires Complete(SECURITY, security) && Complete(MESSAGING, messaging)
    ensures Load(ENVELOPE, EnvelopeElement(security, messaging, ids)) == Ok(envelope)
    ensures SecurityOf(envelope) == Norm(SECURITY, security) && MessagingOf(envelope) == Norm(MESSAGING, messaging)
  {
    EnvelopeIsComplete(security, messaging, ids);
    EnvelopeAliases();
    LoadDumpIsExact(ENVELOPE, Envelope, EnvelopeModel(security, messaging, ids));
    EnvelopeReadsBack(security, messaging, ids);
    envelope := Norm(ENVELOPE, EnvelopeModel(security, messaging, ids));
  }

  lemma CarriedUserMessage(i: BuildInput, j: BuildInput, envelope: Model)
    requires Buildable(i) && i.ids.attachments != [] && CarriedEnvelope(i, j, envelope)
    ensures RequiredUserMessage(envelope) == Ok(UserMessageModel(j))
  {
    UserMessagingParts(j);
  }

  lemma HonestUserMessage(i: BuildInput, envelope: Model)
    requires Buildable(i) && i.ids.attachments != [] && HonestEnvelope(i, envelope)
    ensures RequiredUserMessage(envelope) == Ok(UserMessageModel(i))
  {
    CarriedUserMessage(i, i, envelope);
  }

  // ---------------------------------------------------------------- identification

  lemma RawIdIsRead(i: BuildInput)
    requires i.ids.messagingId != ""
    ensures RawAttribute(UserMessagingElement(i), WsuId) == i.ids.messagingId
  {
    IdFields();
    DumpedAttributeMap(MESSAGING, UserMessagingModel(i));
    NormAttributes(MESSAGING, UserMessagingModel(i), WsuId);
  }

  lemma PartyNests()
    ensures Nests(USER_MESSAGE, PartyInfo, PARTY_INFO) && Nests(PARTY_INFO, To, PARTY)
  {
    FieldLater(USER_MESSAGE, PartyInfo);
    FieldHere(USER_MESSAGE.rest);
    FieldLater(PARTY_INFO, To);
    FieldHere(PARTY_INFO.rest);
  }

  lemma PartyInfoParts(i: BuildInput)
    ensures Children(PartyInfoModel(i), From) == [PartyModel(i.local.identity, INITIATOR)]
    ensures Children(PartyInfoModel(i), To) == [PartyModel(i.remote.identity, RESPONDER)]
  {
  }

  lemma AddresseeIsDumped(i: BuildInput) returns (message: Element, party: Element)
    ensures OnlyTagged(UserMessagingElement(i), UserMessage, message)
    ensures OnlyTagged(message, PartyInfo, party)
    ensures OnlyTagged(party, To, Dump(PARTY, To, PartyModel(i.remote.identity, RESPONDER)))
  {
    UserMessageFields();
    PartyNests();
    UserMessagingParts(i);
    UserMessageParts(i);
    PartyInfoParts(i);
    MessagingAliases();
    UserMessageAliases();
    PartyInfoAliases();
    DumpedChild(MESSAGING, Messaging, UserMessagingModel(i), UserMessage, USER_MESSAGE, UserMessageModel(i));
    DumpedChild(USER_MESSAGE, UserMessage, UserMessageModel(i), PartyInfo, PARTY_INFO, PartyInfoModel(i));
    DumpedChild(PARTY_INFO, PartyInfo, PartyInfoModel(i), To, PARTY, PartyModel(i.remote.identity, RESPONDER));
    message := Dump(USER_MESSAGE, UserMessage, UserMessageModel(i));
    party := Dump(PARTY_INFO, PartyInfo, PartyInfoModel(i));
  }

  lemma AddresseeIsFound(doc: Element, header: Element, messaging: Element, message: Element, party: Element,
                         to: Element, tags: seq<Tag>)
    requires tags == [Header, Messaging, UserMessage, PartyInfo, To]
    requires OnlyTagged(doc, Header, header) && OnlyTagged(header, Messaging, messaging)
    requires OnlyTagged(messaging, UserMessage, message) && OnlyTagged(message, PartyInfo, party)
    requires OnlyTagged(party, To, to)
    ensures Find(doc, tags) == Some(to)
  {
    PathThrough([doc, header, messaging, message, party, to], tags);
  }

  lemma PartyLoads(p: PartyIdentity, role: string)
    requires PeppolParty(p) && TidyString(role)
    ensures Load(PARTY, Dump(PARTY, To, PartyModel(p, role))) == Ok(PartyModel(p, role))
    ensures IdentityOf(PartyModel(p, role)) == p
  {
    PartyIsWellFormed(p, role);
    RoundTrip(PARTY, To, PartyModel(p, role));
  }

  lemma FoundAddressee(doc: Element, to: Element, read: Model, p: PartyIdentity)
    requires Find(doc, PARTY_TO_PATH) == Some(to) && Load(PARTY, to) == Ok(read) && IdentityOf(read) == p
    ensures AddressedTo(doc) == Ok(p)
  {
  }

  /** The identifiers and the addressee of a document with a built header block. */
  lemma HeadingIsRead(doc: Element, header: Element, j: BuildInput)
    requires HonestHeader(j) && OnlyTagged(doc, Header, header) && FirstTagged(doc, Header) == header
    requires OnlyTagged(header, Messaging, UserMessagingElement(j))
    ensures ReadIds(doc) == Ok((Plain(j.ids.messageId), j.ids.messagingId))
    ensures AddressedTo(doc) == Ok(j.remote.identity)
  {
    BuiltIdsAreRead(doc, header, j);
    BuiltAddresseeIsRead(doc, header, j);
  }

  lemma BuiltIdsAreRead(doc: Element, header: Element, j: BuildInput)
    requires HonestHeader(j) && OnlyTagged(doc, Header, header) && FirstTagged(doc, Header) == header
    requires OnlyTagged(header, Messaging, UserMessagingElement(j))
    ensures ReadIds(doc) == Ok((Plain(j.ids.messageId), j.ids.messagingId))
  {
    BlockIsFound(doc, header, UserMessagingElement(j));
    RawIdIsRead(j);
    BuiltMessageIdIsFound(doc, j);
    TidyEnds(j.ids.messageId);
  }

  lemma BuiltAddresseeIsRead(doc: Element, header: Element, j: BuildInput)
    requires HonestHeader(j) && OnlyTagged(doc, Header, header)
    requires OnlyTagged(header, Messaging, UserMessagingElement(j))
    ensures AddressedTo(doc) == Ok(j.remote.identity)
  {
    var message, party := AddresseeIsDumped(j);
    var to := Dump(PARTY, To, PartyModel(j.remote.identity, RESPONDER));
    AddresseeIsFound(doc, header, UserMessagingElement(j), message, party, to, PARTY_TO_PATH);
    RolesAreTidy();
    PartyLoads(j.remote.identity, RESPONDER);
    FoundAddressee(doc, to, PartyModel(j.remote.identity, RESPONDER), j.remote.identity);
  }

  // ---------------------------------------------------------------- the signer

  lemma UserSecurityReadsBack(i: BuildInput, references: seq<Model>)
    requires HonestIds(i.ids)
    ensures var read := Norm(SECURITY, UserSecurityModel(i, references));
            var signature := Norm(SIGNATURE, SignatureOf(i.ids, i.local.credentials.key, references));
            && OptionalChild(read, Signature) == Some(signature)
            && SigningToken(read, signature).Some?
            && TokenContentOf(SigningToken(read, signature).value) == Holds(i.local.credentials.certificate)
  {
    UserSecurityParts(i, references);
    SignedPairReadsBack(UserSecurityModel(i, references), i.ids, i.local.credentials.key, references,
                        TokenModel(i.ids.encryptedKeyTokenId, i.remote.certificate), i.local.credentials.certificate);
  }

  lemma SignedPairReadsBack(security: Model, ids: References, key: Key, references: seq<Model>, other: Model,
                            certificate: Certificate)
    requires Children(security, Signature) == [SignatureOf(ids, key, references)] && ids.signatureTokenId != ""
    requires Children(security, BinarySecurityToken) == [other, TokenModel(ids.signatureTokenId, certificate)]
    requires AttributeOf(other, WsuId) != Some(ids.signatureTokenId)
    ensures var read := Norm(SECURITY, security);
            var signature := Norm(SIGNATURE, SignatureOf(ids, key, references));
            && OptionalChild(read, Signature) == Some(signature)
            && SigningToken(read, signature).Some?
            && TokenContentOf(SigningToken(read, signature).value) == Holds(certificate)
  {
    var tokens := Children(security, BinarySecurityToken);
    SecurityReadsBack(security, SignatureOf(ids, key, references), tokens);
    SigningTokenReadsBack(security, ids, key, references, tokens, certificate);
  }

  lemma UserSignatureVerifies(i: BuildInput)
    requires PreparedContent(i)
    ensures var signature := Norm(SIGNATURE, SignatureOf(i.ids, i.local.credentials.key, BuiltReferencesOf(i)));
            && VerifySignature(signature, SignedInfoElement(BuiltReferencesOf(i)), i.local.credentials.certificate)
               == Verified
            && ReferencesOf(signature) == NormAll(REFERENCE, BuiltReferencesOf(i))
  {
    BuiltSignatureVerifies(i.ids, i.local.credentials.key, BuiltReferencesOf(i), i.local.credentials.certificate);
  }

  lemma UserSignedInfoIsFound(i: BuildInput, messaging: Model)
    requires PreparedContent(i)
    ensures SignedInfoIn(EnvelopeElement(UserSecurityModel(i, BuiltReferencesOf(i)), messaging, i.ids))
         == SignedInfoElement(BuiltReferencesOf(i))
  {
    var references := BuiltReferencesOf(i);
    UserSecurityParts(i, references);
    SignatureModelParts(i.ids, i.local.credentials.key, references);
    SignedInfoIsFound(UserSecurityModel(i, references), messaging, i.ids,
                      SignatureOf(i.ids, i.local.credentials.key, references), references);
  }

  /** What an honest message's references, read back, establish. */
  ghost predicate ReferencesHold(read: seq<Model>, index: map<string, Element>, messaging: Element, body: Element,
                                 id: string, content: Bytes)
  {
    && |read| == 3
    && Verifies(read[0], index, messaging) && messaging.tag == Messaging
    && Verifies(read[1], index, body) && body.tag == Body
    && UriOf(read[2]) == "cid:" + id && BytesDigestMatches(read[2], content) == Matches
  }

  lemma UserReferencesHold(i: BuildInput)
    requires PreparedInput(i)
    ensures IndexById(UserDocument(i)).Ok?
    ensures ReferencesHold(NormAll(REFERENCE, BuiltReferencesOf(i)), IndexById(UserDocument(i)).value,
                           UserMessagingElement(i),
                           Dump(BODY, Body, BodyModel(i.ids)), AttachmentIdOf(i), Gzip(Delivered(i)))
  {
    UserDocumentIs(i);
    UserBlockIsNamed(i);
    BuiltReferencesHold(UserSecurityModel(i, BuiltReferencesOf(i)), UserMessagingModel(i), i.ids, AttachmentIdOf(i),
                        Gzip(Delivered(i)));
  }

  lemma UserBlockIsNamed(i: BuildInput)
    ensures AttributeOf(UserMessagingModel(i), WsuId) == Some(i.ids.messagingId)
  {
  }

  lemma BuiltReferencesHold(security: Model, messaging: Model, ids: References, id: string, content: Bytes)
    requires AttributeOf(messaging, WsuId) == Some(ids.messagingId) && ids.messagingId != "" && ids.bodyId != ""
    requires DistinctIds(IdAttributes(EnvelopeElement(security, messaging, ids)))
    ensures IndexById(EnvelopeElement(security, messaging, ids)).Ok?
    ensures ReferencesHold(NormAll(REFERENCE, HeaderReferences(ids, messaging) + [AttachmentReference(id, content)]),
                           IndexById(EnvelopeElement(security, messaging, ids)).value,
                           Dump(MESSAGING, Messaging, messaging),
                           Dump(BODY, Body, BodyModel(ids)), id, content)
  {
    BuiltContentVerifies(security, messaging, ids);
    ThreeReferencesReadBack(HeaderReferences(ids, messaging), id, content);
  }

  lemma ThreeReferencesReadBack(header: seq<Model>, id: string, content: Bytes)
    requires |header| == 2
    ensures var read := NormAll(REFERENCE, header + [AttachmentReference(id, content)]);
            && |read| == 3
            && read[0] == NormAll(REFERENCE, header)[0] && read[1] == NormAll(REFERENCE, header)[1]
            && UriOf(read[2]) == "cid:" + id && BytesDigestMatches(read[2], content) == Matches
  {
    var references := header + [AttachmentReference(id, content)];
    NormEach(REFERENCE, header);
    NormEach(REFERENCE, references);
    assert references[2] == AttachmentReference(id, content);
    assert ATTACHMENT_CONTENT_SIGNATURE != "";
    DumpedReferenceMatches("cid:" + id, ATTACHMENT_CONTENT_SIGNATURE, content);
  }

  lemma HeldElementsVerify(read: seq<Model>, index: map<string, Element>, messaging: Element, body: Element,
                           id: string, content: Bytes)
    requires ReferencesHold(read, index, messaging, body, id, content)
    ensures ElementsVerify(read, index)
  {
    AttachmentUri(id);
    forall r | r in read && !IsCid(UriOf(r))
      ensures Target(r, index).Some? && ElementDigestMatches(r, Target(r, index).value) == Matches
    {
      assert r == read[0] || r == read[1];
    }
  }

  lemma HeldAttachmentVerifies(read: seq<Model>, id: string, content: Bytes)
    requires |read| == 3 && !IsCid(UriOf(read[0])) && !IsCid(UriOf(read[1]))
    requires UriOf(read[2]) == "cid:" + id && BytesDigestMatches(read[2], content) == Matches
    ensures AttachmentsVerify(read, map[id := content])
  {
    AttachmentUri(id);
    forall r | r in read && IsCid(UriOf(r))
      ensures r == read[2]
    {
    }
  }

  lemma HeldReferencesCover(read: seq<Model>, index: map<string, Element>, messaging: Element, body: Element,
                            id: string, content: Bytes)
    requires ReferencesHold(read, index, messaging, body, id, content)
    ensures CoverageOf(read, index, {"cid:" + id}) == {MessagingCovered, BodyCovered, PayloadsCovered}
  {
    AttachmentUri(id);
    VerifiedTagIsCovered(read, 0, index, messaging);
    VerifiedTagIsCovered(read, 1, index, body);
    assert read[2] in read;
    EverythingIsCovered(read, index, {"cid:" + id});
  }

  lemma VerifiedTagIsCovered(read: seq<Model>, k: nat, index: map<string, Element>, e: Element)
    requires k < |read| && Verifies(read[k], index, e)
    ensures CoversTag(read, index, e.tag)
  {
    assert read[k] in read;
  }

  lemma EverythingIsCovered(read: seq<Model>, index: map<string, Element>, hrefs: set<string>)
    requires CoversTag(read, index, Messaging) && CoversTag(read, index, Body) && hrefs <= SignedPayloads(read)
    ensures CoverageOf(read, index, hrefs) == {MessagingCovered, BodyCovered, PayloadsCovered}
  {
  }

  lemma HonestHrefs(i: BuildInput)
    requires |i.ids.attachments| == 1
    ensures PartInfos(UserMessageModel(i)) == [PartInfoModel(i.ids.attachments[0].0)]
    ensures DeclaredHrefs(UserMessageModel(i)) == {"cid:" + i.ids.attachments[0].0}
  {
    UserMessagingParts(i);
    assert PartInfoModels(i.ids.attachments) == [PartInfoModel(i.ids.attachments[0].0)];
    assert HrefOf(PartInfoModel(i.ids.attachments[0].0)) == "cid:" + i.ids.attachments[0].0;
  }

  lemma HonestSender(i: BuildInput)
    ensures Child(Child(UserMessageModel(i), PartyInfo), From) == PartyModel(i.local.identity, INITIATOR)
    ensures Child(Child(UserMessageModel(i), PartyInfo), To) == PartyModel(i.remote.identity, RESPONDER)
  {
    UserMessageParts(i);
    PartyInfoParts(i);
  }

  // ---------------------------------------------------------------- the pipeline, stage by stage

  /** Two inputs whose header blocks differ at most in their identifiers and their time. */
  predicate SameHeading(i: BuildInput, j: BuildInput) {
    && HonestHeader(j)
    && j.local.identity == i.local.identity && j.remote.identity == i.remote.identity
    && j.arguments == i.arguments && j.ids.attachments == i.ids.attachments
  }

  /** Everything that parsing asks of a document signed for `i` whose header block is that of `j`: the built
      references of `i` hold in it, wherever they resolve. */
  ghost predicate Carries(doc: Element, i: BuildInput, j: BuildInput, envelope: Model)
    requires Buildable(i) && i.ids.attachments != []
  {
    && Load(ENVELOPE, doc) == Ok(envelope) && CarriedEnvelope(i, j, envelope)
    && ReadIds(doc) == Ok((Plain(j.ids.messageId), j.ids.messagingId))
    && AddressedTo(doc) == Ok(j.remote.identity)
    && SignedInfoIn(doc) == SignedInfoElement(BuiltReferencesOf(i))
    && IndexById(doc).Ok?
    && ReferencesHold(NormAll(REFERENCE, BuiltReferencesOf(i)), IndexById(doc).value, UserMessagingElement(i),
                      Dump(BODY, Body, BodyModel(i.ids)), AttachmentIdOf(i), Gzip(Delivered(i)))
  }

  /** The fields after each stage. */
  function AfterIdentify(j: BuildInput): Message {
    NO_FIELDS.(messageId := Plain(j.ids.messageId), messagingId := j.ids.messagingId,
               addressedTo := Some(j.remote.identity))
  }

  function SealedAttachments(i: BuildInput): Attachments
    requires Buildable(i) && i.ids.attachments != []
  {
    Attachments(Some(AttachmentIdOf(i)), map[AttachmentIdOf(i) := Sealed(i.session, Gzip(Delivered(i)))])
  }

  function AfterAuthenticate(i: BuildInput, j: BuildInput, envelope: Model): Message
    requires Buildable(i) && i.ids.attachments != []
  {
    AfterIdentify(j).(attachments := SealedAttachments(i), envelope := Some(envelope),
                      signer := Some(i.local.credentials.certificate))
  }

  function AfterDecrypt(i: BuildInput, j: BuildInput, envelope: Model): Message
    requires Buildable(i) && i.ids.attachments != []
  {
    AfterAuthenticate(i, j, envelope).(decrypted := map[AttachmentIdOf(i) := Gzip(Delivered(i))])
  }

  function AfterUnpack(i: BuildInput, j: BuildInput, envelope: Model): Message
    requires Buildable(i) && i.ids.attachments != []
  {
    AfterAuthenticate(i, j, envelope).(decrypted := map[AttachmentIdOf(i) := Delivered(i)])
  }

  /** What the receiver ends with: the identifiers of the header block, the builder's own account of the
      rest, and the verified signer. */
  function CarriedMessage(i: BuildInput, j: BuildInput, envelope: Model): Message
    requires Buildable(i) && i.ids.attachments != []
  {
    BuiltMessage(i).(messageId := Plain(j.ids.messageId), messagingId := j.ids.messagingId,
                     addressedTo := Some(j.remote.identity), envelope := Some(envelope),
                     signer := Some(i.local.credentials.certificate))
  }

  function AcceptedMessage(i: BuildInput, envelope: Model): Message
    requires Buildable(i) && i.ids.attachments != []
  {
    BuiltMessage(i).(addressedTo := Some(i.remote.identity), envelope := Some(envelope),
                     signer := Some(i.local.credentials.certificate))
  }

  /** The signature stage. */
  lemma HonestSignatureStage(c: Context, doc: Element, i: BuildInput, j: BuildInput, envelope: Model)
    requires PreparedContent(i) && Welcomes(c, i) && SameHeading(i, j) && Carries(doc, i, j, envelope)
    ensures SignatureStage(c.policy, doc, envelope, Some(i.local.credentials.certificate))
  {
    CarriedUserMessage(i, j, envelope);
    UserSecurityReadsBack(i, BuiltReferencesOf(i));
    UserSignatureVerifies(i);
    var read, index := NormAll(REFERENCE, BuiltReferencesOf(i)), IndexById(doc).value;
    var messaging, body := UserMessagingElement(i), Dump(BODY, Body, BodyModel(i.ids));
    HeldElementsVerify(read, index, messaging, body, AttachmentIdOf(i), Gzip(Delivered(i)));
    HeldReferencesCover(read, index, messaging, body, AttachmentIdOf(i), Gzip(Delivered(i)));
    HonestHrefs(j);
    HonestSender(j);
  }

  lemma HonestIdentify(doc: Element, i: BuildInput, j: BuildInput, envelope: Model)
    requires PreparedContent(i) && Carries(doc, i, j, envelope)
    ensures Identify(doc, Progress(NO_FIELDS, [])) == Continue(Progress(AfterIdentify(j), []))
  {
  }

  lemma HonestAuthenticate(c: Context, doc: Element, i: BuildInput, j: BuildInput, envelope: Model)
    requires PreparedContent(i) && Welcomes(c, i) && SameHeading(i, j) && Carries(doc, i, j, envelope)
    ensures Authenticate(c, doc, SealedAttachments(i), Progress(AfterIdentify(j), []))
         == Continue(Progress(AfterAuthenticate(i, j, envelope), []))
  {
    HonestSignatureStage(c, doc, i, j, envelope);
    SignatureStageIsExact(c.policy, doc, envelope, Some(i.local.credentials.certificate));
  }

  lemma HonestReferences(i: BuildInput, j: BuildInput, envelope: Model, m: Message)
    requires PreparedContent(i) && CarriedEnvelope(i, j, envelope) && m.envelope == Some(envelope)
    ensures SignatureReferences(m) == NormAll(REFERENCE, BuiltReferencesOf(i))
  {
    UserSecurityReadsBack(i, BuiltReferencesOf(i));
    UserSignatureVerifies(i);
  }

  lemma DecryptContinues(c: Context, p: Progress, data: map<string, Bytes>)
    requires p.fields.envelope.Some?
    requires DecryptedData(c.policy, c.key, SecurityOf(p.fields.envelope.value), p.fields.attachments.parts) == Ok(data)
    requires AttachmentDigestFault(SignatureReferences(p.fields), data).None?
    ensures Decrypt(c, p) == Continue(p.(fields := p.fields.(decrypted := data)))
  {
  }

  lemma HonestDigests(doc: Element, i: BuildInput, j: BuildInput, envelope: Model)
    requires PreparedContent(i) && Carries(doc, i, j, envelope)
    ensures AttachmentDigestFault(NormAll(REFERENCE, BuiltReferencesOf(i)),
                                  map[AttachmentIdOf(i) := Gzip(Delivered(i))]).None?
  {
    var read := NormAll(REFERENCE, BuiltReferencesOf(i));
    HeldAttachmentVerifies(read, AttachmentIdOf(i), Gzip(Delivered(i)));
    AttachmentDigestsAreChecked(read, map[AttachmentIdOf(i) := Gzip(Delivered(i))]);
  }

  lemma HonestDecrypt(c: Context, doc: Element, i: BuildInput, j: BuildInput, envelope: Model)
    requires PreparedContent(i) && Welcomes(c, i) && Carries(doc, i, j, envelope)
    ensures Decrypt(c, Progress(AfterAuthenticate(i, j, envelope), []))
         == Continue(Progress(AfterDecrypt(i, j, envelope), []))
  {
    var p := Progress(AfterAuthenticate(i, j, envelope), []);
    HonestAttachmentIsDecrypted(c.policy, i, BuiltReferencesOf(i), p.fields.attachments.parts, Gzip(Delivered(i)));
    HonestDigests(doc, i, j, envelope);
    HonestReferences(i, j, envelope, p.fields);
    DecryptContinues(c, p, map[AttachmentIdOf(i) := Gzip(Delivered(i))]);
  }

  lemma HonestPartIsGzip(id: string)
    ensures IsGzipPart(PartInfoModel(id)) && HrefOf(PartInfoModel(id)) == "cid:" + id
  {
    PartInfoIsWellFormed(id);
    WellFormedNorm(PART_INFO, PartInfoModel(id));
    BuiltPartIsGzip(id);
  }

  lemma OnePartIsUnpacked(part: Model, id: string, attachments: map<string, Bytes>, content: Bytes, maximumSize: nat,
                          sizeOf: Bytes -> nat)
    requires IsGzipPart(part) && HrefOf(part) == "cid:" + id && id in attachments && sizeOf(content) <= maximumSize
    ensures DecompressParts([part], attachments, map[id := Gzip(content)], maximumSize, sizeOf)
         == Decompressed(map[id := content], None)
  {
    AttachmentUri(id);
    assert [part][1..] == [];
    assert map[id := Gzip(content)][id := content] == map[id := content];
  }

  lemma UnpackContinues(c: Context, p: Progress, message: Model, data: map<string, Bytes>)
    requires p.fields.envelope.Some? && RequiredUserMessage(p.fields.envelope.value) == Ok(message)
    requires OptionalChild(message, PayloadInfo).Some?
    requires DecompressParts(PartInfos(message), p.fields.attachments.parts, p.fields.decrypted, c.policy.maximumSize,
                             c.sizeOf)
          == Decompressed(data, None)
    ensures Unpack(c, p) == Continue(p.(fields := p.fields.(decrypted := data)))
  {
  }

  lemma HonestUnpack(c: Context, i: BuildInput, j: BuildInput, envelope: Model)
    requires PreparedContent(i) && Welcomes(c, i) && SameHeading(i, j) && CarriedEnvelope(i, j, envelope)
    ensures Unpack(c, Progress(AfterDecrypt(i, j, envelope), [])) == Continue(Progress(AfterUnpack(i, j, envelope), []))
  {
    var p := Progress(AfterDecrypt(i, j, envelope), []);
    CarriedUserMessage(i, j, envelope);
    UserMessageParts(j);
    HonestHrefs(j);
    HonestPartIsGzip(AttachmentIdOf(i));
    OnePartIsUnpacked(PartInfoModel(AttachmentIdOf(i)), AttachmentIdOf(i), p.fields.attachments.parts, Delivered(i),
                      c.policy.maximumSize, c.sizeOf);
    UnpackContinues(c, p, UserMessageModel(j), map[AttachmentIdOf(i) := Delivered(i)]);
  }

  lemma HonestCoreProcess(c: Context, doc: Element, i: BuildInput, j: BuildInput, envelope: Model)
    requires PreparedContent(i) && Welcomes(c, i) && SameHeading(i, j) && Carries(doc, i, j, envelope)
    ensures CoreProcess(c, doc, SealedAttachments(i), Progress(AfterIdentify(j), []))
         == Continue(Progress(AfterUnpack(i, j, envelope), []))
  {
    HonestAuthenticate(c, doc, i, j, envelope);
    HonestDecrypt(c, doc, i, j, envelope);
    HonestUnpack(c, i, j, envelope);
  }

  lemma HonestParties(i: BuildInput)
    requires HonestHeader(i)
    ensures PartiesArePeppol(UserMessageModel(i))
    ensures Children(Child(UserMessageModel(i), MessageProperties), Property) == PropertyModels(i.arguments)
  {
    HonestSender(i);
    UserMessageParts(i);
    assert Child(PartyModel(i.local.identity, INITIATOR), PartyId) == PartyIdModel(i.local.identity);
    assert Child(PartyModel(i.remote.identity, RESPONDER), PartyId) == PartyIdModel(i.remote.identity);
  }

  lemma HonestRoute(c: Context, i: BuildInput, j: BuildInput, envelope: Model)
    requires PreparedContent(i) && Welcomes(c, i) && SameHeading(i, j)
    ensures var p := Progress(AfterUnpack(i, j, envelope), []);
            var r := Route(c, UserMessageModel(j), RoutingHeaderOf(i), p);
            r.Continue? && r.progress.fields == CarriedMessage(i, j, envelope)
  {
    var header := RoutingHeaderOf(i);
    HonestParties(j);
    HonestParticipants(header, i.arguments, RootName(i.arguments.documentType).value, i.now);
    HonestParticipantsAgree(UserMessageModel(j), header, i.arguments);
    HonestDocumentIsRouted(c, UserMessageModel(j), header, i.arguments, Progress(AfterUnpack(i, j, envelope), []));
  }

  lemma SbdhRoutes(c: Context, p: Progress, message: Model, header: Model)
    requires p.fields.envelope.Some? && RequiredUserMessage(p.fields.envelope.value) == Ok(message)
    requires PartiesArePeppol(message)
    requires FirstPayload(p.fields).Some? && BusinessHeader(c, FirstPayload(p.fields).value) == Some(header)
    ensures ProcessSbdh(c, p) == Route(c, message, header, p)
  {
  }

  lemma HonestHeaderIsRead(c: Context, i: BuildInput)
    requires HonestContent(i) && Welcomes(c, i)
    ensures BusinessHeader(c, Delivered(i)) == Some(RoutingHeaderOf(i))
  {
    RoutingHeaderIsRead(c, i.arguments, RootName(i.arguments.documentType).value, i.now, ParseXml(i.payload).value);
  }

  lemma HonestPayload(i: BuildInput, j: BuildInput, envelope: Model)
    requires Buildable(i) && i.ids.attachments != []
    ensures FirstPayload(AfterUnpack(i, j, envelope)) == Some(Delivered(i))
    ensures AfterUnpack(i, j, envelope).envelope == Some(envelope)
  {
  }

  lemma HonestSbdh(c: Context, i: BuildInput, j: BuildInput, envelope: Model)
    requires HonestContent(i) && Welcomes(c, i) && SameHeading(i, j) && CarriedEnvelope(i, j, envelope)
    ensures var r := ProcessSbdh(c, Progress(AfterUnpack(i, j, envelope), []));
            r.Continue? && r.progress.fields == CarriedMessage(i, j, envelope)
  {
    CarriedUserMessage(i, j, envelope);
    HonestParties(j);
    HonestHeaderIsRead(c, i);
    HonestPayload(i, j, envelope);
    HonestRoute(c, i, j, envelope);
    var p := Progress(AfterUnpack(i, j, envelope), []);
    SbdhRoutes(c, p, UserMessageModel(j), RoutingHeaderOf(i));
  }

  /** A document that carries honest content and is welcome is parsed without an error. */
  lemma CarriedMessageIsAccepted(c: Context, doc: Element, i: BuildInput, j: BuildInput, envelope: Model)
    requires HonestContent(i) && Welcomes(c, i) && SameHeading(i, j) && Carries(doc, i, j, envelope)
    ensures Peppol.Parse(c, Wire(Xml(doc), SealedAttachments(i))).Returned?
    ensures Peppol.Parse(c, Wire(Xml(doc), SealedAttachments(i))).message == CarriedMessage(i, j, envelope)
  {
    HonestIdentify(doc, i, j, envelope);
    HonestCoreProcess(c, doc, i, j, envelope);
    HonestSbdh(c, i, j, envelope);
  }

  lemma SbdhRefuses(c: Context, p: Progress, message: Model)
    requires p.fields.envelope.Some? && RequiredUserMessage(p.fields.envelope.value) == Ok(message)
    requires PartiesArePeppol(message)
    requires FirstPayload(p.fields).Some? && BusinessHeader(c, FirstPayload(p.fields).value).None?
    ensures ProcessSbdh(c, p) == Refuse(p, PeppolSbdh)
  {
  }

  lemma RoutingPayloadStops(c: Context, i: BuildInput, envelope: Model)
    requires PreparedContent(i) && HonestEnvelope(i, envelope)
    requires ParseXml(i.payload).value.tag == StandardBusinessDocumentHeader
    ensures ProcessSbdh(c, Progress(AfterUnpack(i, i, envelope), []))
         == Refuse(Progress(AfterUnpack(i, i, envelope), []), PeppolSbdh)
  {
    CarriedUserMessage(i, i, envelope);
    HonestParties(i);
    SecondHeaderIsRefused(c, i.arguments, RootName(i.arguments.documentType).value, i.now, ParseXml(i.payload).value);
    HonestPayload(i, i, envelope);
    SbdhRefuses(c, Progress(AfterUnpack(i, i, envelope), []), UserMessageModel(i));
  }

  lemma RoutedPipeline(c: Context, w: Wire, doc: Element, p1: Progress, p2: Progress)
    requires w.soap == Xml(doc) && Identify(doc, Progress(NO_FIELDS, [])) == Continue(p1)
    requires CoreProcess(c, doc, w.attachments, p1) == Continue(p2)
    ensures p2.fields.envelope.Some? && Pipeline(c, w) == ProcessSbdh(c, p2)
  {
  }

  lemma StoppedRouting(c: Context, w: Wire, doc: Element, p1: Progress, p2: Progress, fault: Refusal)
    requires w.soap == Xml(doc) && Identify(doc, Progress(NO_FIELDS, [])) == Continue(p1)
    requires CoreProcess(c, doc, w.attachments, p1) == Continue(p2)
    requires p2.fields.envelope.Some? && ProcessSbdh(c, p2) == Refuse(p2, fault)
    ensures Peppol.Parse(c, w) == Returned(p2.fields.(error := Some(fault)), p2.asked)
  {
    RoutedPipeline(c, w, doc, p1, p2);
  }

  /** A message whose payload is itself a routing header passes every stage but the last, where it is refused. */
  lemma RoutingPayloadIsRefused(c: Context, i: BuildInput)
    requires PreparedInput(i) && Welcomes(c, i) && ParseXml(i.payload).value.tag == StandardBusinessDocumentHeader
    ensures Peppol.Parse(c, WireOf(BuiltMessage(i))).Returned?
    ensures Peppol.Parse(c, WireOf(BuiltMessage(i))).message.error == Some(PeppolSbdh)
    ensures Peppol.Parse(c, WireOf(BuiltMessage(i))).message.messageId == Plain(i.ids.messageId)
  {
    var envelope := UserDocumentCarries(i);
    HonestIdentify(UserDocument(i), i, i, envelope);
    HonestCoreProcess(c, UserDocument(i), i, i, envelope);
    RoutingPayloadStops(c, i, envelope);
    StoppedRouting(c, WireOf(BuiltMessage(i)), UserDocument(i), Progress(AfterIdentify(i), []),
                   Progress(AfterUnpack(i, i, envelope), []), PeppolSbdh);
  }

  lemma UserDocumentCarries(i: BuildInput) returns (envelope: Model)
    requires PreparedInput(i)
    ensures Carries(UserDocument(i), i, i, envelope)
  {
    envelope := UserDocumentLoads(i);
    UserDocumentIs(i);
    EnvelopeBlocks(UserSecurityModel(i, BuiltReferencesOf(i)), UserMessagingModel(i), i.ids);
    HeadingIsRead(UserDocument(i), Dump(HEADER, Header,
                                        HeaderModel(UserSecurityModel(i, BuiltReferencesOf(i)),
                                                    UserMessagingModel(i))), i);
    UserSignedInfoIsFound(i, UserMessagingModel(i));
    UserReferencesHold(i);
  }

  /** An honest message that is welcome is parsed without an error, into what was built. */
  lemma HonestMessageIsAccepted(c: Context, i: BuildInput) returns (envelope: Model)
    requires HonestInput(i) && Welcomes(c, i)
    ensures HonestEnvelope(i, envelope)
    ensures Peppol.Parse(c, WireOf(BuiltMessage(i))).Returned?
    ensures Peppol.Parse(c, WireOf(BuiltMessage(i))).message == AcceptedMessage(i, envelope)
  {
    envelope := UserDocumentCarries(i);
    CarriedMessageIsAccepted(c, UserDocument(i), i, i, envelope);
    assert WireOf(BuiltMessage(i)) == Wire(Xml(UserDocument(i)), SealedAttachments(i));
  }
}
