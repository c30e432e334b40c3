/** What an issued signature binds: a signal that verifies answers one accepted message, and the
    accepted message is the one that was built. */
module Agreement {
  import opened Terms
  import opened XmlMapping
  import opened Schemas
  import opened Documents
  import opened Dsig
  import opened Errors
  import opened Messages
  import opened Peppol
  import opened Receipts
  import opened Builder
  import opened Exchanges
  import opened Envelopes
  import opened Acceptance
  import opened Authenticity

  // ---------------------------------------------------------------- what has been signed

  /** A use of a private key: a build, or a receiving exchange answering what it was handed. */
  datatype Issue =
    | IssuedMessage(input: BuildInput)
    | IssuedSignal(receiver: ReceiverState, context: Context, unpacked: Unpacked, now: Text)

  /** The message that a signal answers. */
  function Answered(i: Issue): Message
    requires i.IssuedSignal? && ParseMessage(i.context, i.unpacked).Returned?
  {
    ParseMessage(i.context, i.unpacked).message
  }

  ghost predicate Genuine(i: Issue) {
    match i
    case IssuedMessage(input) => Buildable(input) && input.ids.attachments != []
    case IssuedSignal(_, context, unpacked, _) => ParseMessage(context, unpacked).Returned?
  }

  ghost function SignerOf(i: Issue): Key {
    match i
    case IssuedMessage(input) => input.local.credentials.key
    case IssuedSignal(receiver, _, _, _) => receiver.local.credentials.key
  }

  ghost function IssuedReferences(i: Issue): seq<Model>
    requires Genuine(i)
  {
    HeaderReferences(IssuedIds(i), IssuedBlock(i)) + IssuedPayloads(i)
  }

  /** What is signed is what the builders sign. */
  lemma IssuedReferencesAreBuilt(i: Issue)
    requires Genuine(i)
    ensures i.IssuedMessage? ==>
              IssuedReferences(i) == UserReferences(i.input, AttachmentIdOf(i.input), Gzip(Delivered(i.input)))
    ensures i.IssuedSignal? ==> IssuedReferences(i) == SignalReferences(Answered(i), i.receiver.ids, i.now)
  {
  }

  lemma IssuedPayloadsAreAttachments(i: Issue)
    requires Genuine(i)
    ensures forall r | r in IssuedPayloads(i) :: IsCid(UriOf(r))
  {
    if i.IssuedMessage? {
      AttachmentUri(AttachmentIdOf(i.input));
    }
  }

  /** The identifiers and the header block that were signed. */
  ghost function IssuedIds(i: Issue): References {
    match i
    case IssuedMessage(input) => input.ids
    case IssuedSignal(receiver, _, _, _) => receiver.ids
  }

  ghost function IssuedBlock(i: Issue): Model
    requires Genuine(i)
  {
    match i
    case IssuedMessage(input) => UserMessagingModel(input)
    case IssuedSignal(receiver, _, _, now) => SignalMessagingModel(Answered(i), receiver.ids, now)
  }

  ghost function IssuedPayloads(i: Issue): seq<Model>
    requires Genuine(i)
  {
    match i
    case IssuedMessage(input) => [AttachmentReference(AttachmentIdOf(input), Gzip(Delivered(input)))]
    case IssuedSignal(_, _, _, _) => []
  }

  ghost function IssuedBlockElement(i: Issue): Element
    requires Genuine(i)
  {
    Dump(MESSAGING, Messaging, IssuedBlock(i))
  }

  /** What a network can put together: anything at all, except signatures of keys it does not hold,
      which it can only copy. */
  ghost predicate Deliverable(issued: seq<Issue>, honest: set<Key>, doc: Element) {
    forall e :: e in Nodes(doc) && e.text.SignatureText? && e.text.signer in honest ==>
      exists i :: i in issued && Genuine(i) && e.text == Signed(SignerOf(i), IssuedReferences(i))
  }

  // ---------------------------------------------------------------- the signal side

  lemma ContentIsChecked(doc: Element, references: seq<Model>)
    requires SignalContentProblem(doc, references).None?
    ensures IndexById(doc).Ok?
    ensures CoversTag(references, IndexById(doc).value, Messaging)
    ensures SignalDigestProblem(references, IndexById(doc).value).None?
  {
    CoveredTags(references, IndexById(doc).value, {}, {MessagingCovered});
  }

  /** What a signal that was read has passed. */
  lemma ReadSignalFacts(doc: Element, expected: Certificate)
    requires ReadSignal(Xml(doc), expected).Ok?
    ensures var envelope := ReadSignal(Xml(doc), expected).value.envelope;
            var signature := Child(SecurityOf(envelope), Signature);
            && Load(ENVELOPE, doc) == Ok(envelope)
            && ReadSignal(Xml(doc), expected).value == Signal(envelope, OriginalMessageId(envelope))
            && OptionalChild(SecurityOf(envelope), Signature).Some?
            && VerifySignature(signature, SignedInfoIn(doc), expected) == Verified
            && SignalContentProblem(doc, ReferencesOf(signature)).None?
  {
  }

  /** The signature of a readable signal was issued by the expected signer. */
  lemma SignatureWasIssued(issued: seq<Issue>, honest: set<Key>, doc: Element, envelope: Model, expected: Certificate)
    returns (i: Issue)
    requires Deliverable(issued, honest, doc) && expected.key in honest
    requires Load(ENVELOPE, doc) == Ok(envelope) && OptionalChild(SecurityOf(envelope), Signature).Some?
    requires VerifySignature(Child(SecurityOf(envelope), Signature), SignedInfoIn(doc), expected) == Verified
    ensures i in issued && Genuine(i) && SignerOf(i) == expected.key
    ensures ReferencesOf(Child(SecurityOf(envelope), Signature)) == NormAll(REFERENCE, IssuedReferences(i))
  {
    var signature := Child(SecurityOf(envelope), Signature);
    SignatureValueIsInside(doc, signature, expected);
    i :| i in issued && Genuine(i)
         && SignatureText(expected.key, SignatureAlgorithmOf(signature), Xml(SignedInfoIn(doc)))
            == Signed(SignerOf(i), IssuedReferences(i));
    SignatureIsLoaded(doc);
    SignedReferencesAreLoaded(IssuedReferences(i));
  }

  /** A signal cannot carry the signature of a user message: its payload reference has the attachment
      transform. */
  lemma PayloadReferenceIsNoElement(references: seq<Model>, id: string, content: Bytes, index: map<string, Element>)
    requires AttachmentReference(id, content) in references
    ensures SignalDigestProblem(NormAll(REFERENCE, references), index).Some?
  {
    var read := NormAll(REFERENCE, references);
    if SignalDigestProblem(read, index).None? {
      var k :| 0 <= k < |references| && references[k] == AttachmentReference(id, content);
      NormEach(REFERENCE, references);
      SignalDigestsAreChecked(read, index);
      assert read[k] in read;
      TransformsDiffer();
      DumpedReferenceVerifies("cid:" + id, ATTACHMENT_CONTENT_SIGNATURE, content, EXCLUSIVE_C14N,
                              Xml(Target(read[k], index).value));
    }
  }

  /** The exact condition: a document whose references are those that were issued covers its header exactly
      when the header holds the issued block. */
  lemma IssuedHeader(doc: Element, envelope: Model, i: Issue)
    requires Load(ENVELOPE, doc) == Ok(envelope) && IndexById(doc).Ok? && Genuine(i)
    requires ReferencesIn(envelope) == NormAll(REFERENCE, IssuedReferences(i))
    requires EachVerifies(ReferencesIn(envelope), IndexById(doc).value)
    requires CoversTag(ReferencesIn(envelope), IndexById(doc).value, Messaging)
    ensures HeaderCovered(doc) <==> MessagingIn(doc) == IssuedBlockElement(i)
    ensures HeaderCovered(doc) ==> MessagingOf(envelope) == Norm(MESSAGING, IssuedBlock(i))
  {
    IssuedPayloadsAreAttachments(i);
    CoveredMessagingIsSigned(IssuedIds(i), IssuedBlock(i), IssuedPayloads(i), IndexById(doc).value);
    MessagingIsLoaded(doc);
    if MessagingIn(doc) == IssuedBlockElement(i) {
      HeaderBlockIsLoaded(doc, IssuedBlock(i));
    }
  }

  /** The signature of a readable signal was issued for a signal. */
  lemma SignalWasIssued(issued: seq<Issue>, honest: set<Key>, doc: Element, expected: Certificate) returns (i: Issue)
    requires Deliverable(issued, honest, doc) && expected.key in honest
    requires ReadSignal(Xml(doc), expected).Ok?
    ensures i in issued && i.IssuedSignal? && Genuine(i) && SignerOf(i) == expected.key
    ensures ReferencesIn(ReadSignal(Xml(doc), expected).value.envelope) == NormAll(REFERENCE, IssuedReferences(i))
  {
    ReadSignalFacts(doc, expected);
    var envelope := ReadSignal(Xml(doc), expected).value.envelope;
    i := SignatureWasIssued(issued, honest, doc, envelope, expected);
    ContentIsChecked(doc, ReferencesIn(envelope));
    if i.IssuedMessage? {
      assert IssuedReferences(i)[2] == AttachmentReference(AttachmentIdOf(i.input), Gzip(Delivered(i.input)));
      PayloadReferenceIsNoElement(IssuedReferences(i), AttachmentIdOf(i.input), Gzip(Delivered(i.input)),
                                  IndexById(doc).value);
      assert false;
    }
  }

  lemma ReadReferencesVerify(doc: Element, expected: Certificate)
    requires ReadSignal(Xml(doc), expected).Ok?
    ensures var envelope := ReadSignal(Xml(doc), expected).value.envelope;
            && Load(ENVELOPE, doc) == Ok(envelope) && IndexById(doc).Ok?
            && EachVerifies(ReferencesIn(envelope), IndexById(doc).value)
            && CoversTag(ReferencesIn(envelope), IndexById(doc).value, Messaging)
  {
    ReadSignalFacts(doc, expected);
    var envelope := ReadSignal(Xml(doc), expected).value.envelope;
    ContentIsChecked(doc, ReferencesIn(envelope));
    SignalDigestsAreChecked(ReferencesIn(envelope), IndexById(doc).value);
  }

  /** A signal that was read under an honest party's certificate carries the header block that a holder of
      that key built for one answered message, exactly when its signature covers its header. */
  lemma ReadSignalIsExact(issued: seq<Issue>, honest: set<Key>, doc: Element, expected: Certificate) returns (i: Issue)
    requires Deliverable(issued, honest, doc) && expected.key in honest
    requires ReadSignal(Xml(doc), expected).Ok?
    ensures i in issued && i.IssuedSignal? && Genuine(i) && SignerOf(i) == expected.key
    ensures HeaderCovered(doc) <==> MessagingIn(doc) == IssuedBlockElement(i)
    ensures HeaderCovered(doc) ==>
              MessagingOf(ReadSignal(Xml(doc), expected).value.envelope)
              == Norm(MESSAGING, SignalMessagingModel(Answered(i), i.receiver.ids, i.now))
  {
    i := SignalWasIssued(issued, honest, doc, expected);
    ReadReferencesVerify(doc, expected);
    IssuedHeader(doc, ReadSignal(Xml(doc), expected).value.envelope, i);
  }

  // ---------------------------------------------------------------- the message side

  /** What a built message's signature refers to. */
  lemma BuiltReferences(input: BuildInput)
    requires Buildable(input) && input.ids.attachments != []
    ensures SignatureReferences(BuiltMessage(input))
         == UserReferences(input, AttachmentIdOf(input), Gzip(Delivered(input)))
  {
    var references := UserReferences(input, AttachmentIdOf(input), Gzip(Delivered(input)));
    EnvelopeParts(UserSecurityModel(input, references), UserMessagingModel(input), input.ids);
    SecurityParts(input, references);
    SignatureParts(input.ids, input.local.credentials.key, references);
  }

  lemma EnvelopeParts(security: Model, messaging: Model, ids: References)
    ensures SecurityOf(EnvelopeModel(security, messaging, ids)) == security
    ensures MessagingOf(EnvelopeModel(security, messaging, ids)) == messaging
  {
  }

  lemma SecurityParts(input: BuildInput, references: seq<Model>)
    ensures Children(UserSecurityModel(input, references), Signature)
         == [SignatureOf(input.ids, input.local.credentials.key, references)]
  {
  }

  lemma SignatureParts(ids: References, key: Key, references: seq<Model>)
    ensures ReferencesOf(SignatureOf(ids, key, references)) == references
  {
    assert Children(SignatureOf(ids, key, references), SignedInfo) == [SignedInfoModel(references)];
  }

  /** A signed element reference that compares equal to a built one was verified on the built element. */
  lemma AcknowledgedElement(references: seq<Model>, index: map<string, Element>, id: string, built: Element)
    requires ElementsVerify(references, index)
    requires ComparableOf(ElementReference(id, built)) in Comparables(references)
    ensures id in index && index[id] == built
  {
    var k :| 0 <= k < |references| && Comparables(references)[k] == ComparableOf(ElementReference(id, built));
    var r := references[k];
    assert r in references && UriOf(r) == "#" + id;
    ElementUri(id);
    BuiltDigestMatches("#" + id, EXCLUSIVE_C14N, Xml(built), Xml(built));
    EqualReferencesAgree(r, ElementReference(id, built), EXCLUSIVE_C14N, Xml(index[id]), Xml(built));
  }

  /** A signed attachment reference that compares equal to a built one was verified on the built content. */
  lemma AcknowledgedAttachment(references: seq<Model>, attachments: map<string, Bytes>, id: string, built: Bytes)
    requires AttachmentsVerify(references, attachments)
    requires ComparableOf(AttachmentReference(id, built)) in Comparables(references)
    ensures id in attachments && attachments[id] == built
  {
    var k :| 0 <= k < |references| && Comparables(references)[k] == ComparableOf(AttachmentReference(id, built));
    var r := references[k];
    assert r in references && UriOf(r) == "cid:" + id;
    AttachmentUri(id);
    BuiltDigestMatches("cid:" + id, ATTACHMENT_CONTENT_SIGNATURE, built, built);
    EqualReferencesAgree(r, AttachmentReference(id, built), ATTACHMENT_CONTENT_SIGNATURE, attachments[id], built);
  }

  // ---------------------------------------------------------------- the built header block, as received

  lemma UserMessagingParts(input: BuildInput)
    ensures Children(UserMessagingModel(input), UserMessage) == [UserMessageModel(input)]
    ensures Children(UserMessageModel(input), MessageInfo)
         == [MessageInfoModel(input.now, input.ids.messageId, Plain(""))]
    ensures Children(MessageInfoModel(input.now, input.ids.messageId, Plain("")), MessageId)
         == [TextModel(Plain(input.ids.messageId))]
    ensures Children(Child(UserMessageModel(input), PayloadInfo), PartInfo) == PartInfoModels(input.ids.attachments)
  {
  }

  /** The raw message identifier of a document that carries a built header block. */
  lemma BuiltMessageIdIsFound(doc: Element, input: BuildInput)
    requires OnlyTagged(doc, Header, FirstTagged(doc, Header))
    requires OnlyTagged(FirstTagged(doc, Header), Messaging, UserMessagingElement(input))
    ensures FindText(doc, MESSAGE_ID_PATH) == Plain(input.ids.messageId)
  {
    var message, info, id := BuiltIds(input);
    TextAlongPath(doc, FirstTagged(doc, Header), UserMessagingElement(input), message, info, id, MESSAGE_ID_PATH);
  }

  lemma TextAlongPath(doc: Element, header: Element, messaging: Element, message: Element, info: Element, id: Element,
                      tags: seq<Tag>)
    requires tags == [Header, Messaging, UserMessage, MessageInfo, MessageId]
    requires OnlyTagged(doc, Header, header) && OnlyTagged(header, Messaging, messaging)
    requires OnlyTagged(messaging, UserMessage, message) && OnlyTagged(message, MessageInfo, info)
    requires OnlyTagged(info, MessageId, id)
    ensures FindText(doc, tags) == id.text
  {
    TextAtPath([doc, header, messaging, message, info, id], tags);
  }

  lemma BuiltIds(input: BuildInput) returns (message: Element, info: Element, id: Element)
    ensures OnlyTagged(UserMessagingElement(input), UserMessage, message)
    ensures OnlyTagged(message, MessageInfo, info)
    ensures OnlyTagged(info, MessageId, id)
    ensures id.text == Plain(input.ids.messageId)
  {
    UserMessageFields();
    UserMessagingParts(input);
    MessagingAliases();
    UserMessageAliases();
    message, info, id := DumpedIds(MESSAGING, USER_MESSAGE, MESSAGE_INFO, UserMessagingModel(input),
                                   UserMessageModel(input),
                                   MessageInfoModel(input.now, input.ids.messageId, Plain("")),
                                   TextModel(Plain(input.ids.messageId)));
  }

  lemma DumpedIds(messaging: Schema, user: Schema, info: Schema, block: Model, m: Model, n: Model, i: Model)
    returns (message: Element, infoElement: Element, id: Element)
    requires DistinctAliases(messaging) && DistinctAliases(user) && DistinctAliases(info)
    requires Nests(messaging, UserMessage, user) && Nests(user, MessageInfo, info)
    requires Nests(info, MessageId, REQUIRED_TEXT)
    requires Children(block, UserMessage) == [m] && Children(m, MessageInfo) == [n] && Children(n, MessageId) == [i]
    ensures OnlyTagged(Dump(messaging, Messaging, block), UserMessage, message)
    ensures OnlyTagged(message, MessageInfo, infoElement) && OnlyTagged(infoElement, MessageId, id)
    ensures id.text == TextOf(i)
  {
    DumpedChild(messaging, Messaging, block, UserMessage, user, m);
    DumpedChild(user, UserMessage, m, MessageInfo, info, n);
    DumpedChild(info, MessageInfo, n, MessageId, REQUIRED_TEXT, i);
    message, infoElement, id := Dump(user, UserMessage, m), Dump(info, MessageInfo, n),
    Dump(REQUIRED_TEXT, MessageId, i);
  }

  lemma GzipPropertySurvivesDump()
    ensures FindProperty(NormAll(PROPERTY, Children(GZIP_PROPERTIES, Property)), COMPRESSION_TYPE)
         == Some(Norm(PROPERTY, PropertyModel(COMPRESSION_TYPE, GZIP, None)))
  {
    PropertySurvivesDump(Children(GZIP_PROPERTIES, Property), COMPRESSION_TYPE);
    assert |"MimeType"| != |COMPRESSION_TYPE|;
  }

  /** A built part, as received: it names its attachment and declares gzip. */
  lemma BuiltPartIsGzip(id: string)
    ensures IsGzipPart(Norm(PART_INFO, PartInfoModel(id)))
    ensures HrefOf(Norm(PART_INFO, PartInfoModel(id))) == "cid:" + id
  {
    PartInfoFields();
    PartInfoHref();
    GzipPropertySurvivesDump();
    GzipTextSurvivesDump();
    GzipPart(PART_INFO, PROPERTIES, PROPERTY, PartInfoModel(id), GZIP_PROPERTIES);
    NormAttributeOr(PART_INFO, PartInfoModel(id), Href);
  }

  lemma GzipTextSurvivesDump()
    ensures TextOf(Norm(PROPERTY, PropertyModel(COMPRESSION_TYPE, GZIP, None))) == Plain(GZIP)
  {
    NormTextOr(PROPERTY, PropertyModel(COMPRESSION_TYPE, GZIP, None));
    assert GZIP[0] == 'a' && GZIP[|GZIP| - 1] == 'p';
    TrimKeeps(GZIP);
  }

  lemma GzipPart(part: Schema, properties: Schema, property: Schema, m: Model, declared: Model)
    requires Nests(part, PartProperties, properties) && Nests(properties, Property, property)
    requires Child(m, PartProperties) == declared
    requires var found := FindProperty(NormAll(property, Children(declared, Property)), COMPRESSION_TYPE);
             found.Some? && TextOf(found.value) == Plain(GZIP)
    ensures IsGzipPart(Norm(part, m))
  {
    NormChild(part, m, PartProperties);
    NormChildren(properties, declared, Property);
  }

  /** The parts that a receiver finds in a built header block. */
  lemma BuiltPartsAreReceived(messaging: Model, input: BuildInput)
    requires messaging == Norm(MESSAGING, UserMessagingModel(input))
    ensures Children(messaging, UserMessage) == [Norm(USER_MESSAGE, UserMessageModel(input))]
    ensures PartInfos(Norm(USER_MESSAGE, UserMessageModel(input)))
         == NormAll(PART_INFO, PartInfoModels(input.ids.attachments))
  {
    UserMessageFields();
    UserMessagingParts(input);
    NormChildren(MESSAGING, UserMessagingModel(input), UserMessage);
    assert NormAll(USER_MESSAGE, [UserMessageModel(input)]) == [Norm(USER_MESSAGE, UserMessageModel(input))];
    PartsSurviveDump(USER_MESSAGE, PAYLOAD_INFO, PART_INFO, UserMessageModel(input));
  }

  lemma PartsSurviveDump(user: Schema, payload: Schema, part: Schema, m: Model)
    requires Nests(user, PayloadInfo, payload) && Nests(payload, PartInfo, part)
    ensures PartInfos(Norm(user, m)) == NormAll(part, PartInfos(m))
  {
    NormChild(user, m, PayloadInfo);
    NormChildren(payload, Child(m, PayloadInfo), PartInfo);
  }

  /** Every received part of a built message is a gzip part, and the first attachment is named. */
  lemma BuiltPartsAreGzip(attachments: seq<(string, string)>)
    requires attachments != []
    ensures forall p | p in NormAll(PART_INFO, PartInfoModels(attachments)) :: IsGzipPart(p)
    ensures PartsNaming(NormAll(PART_INFO, PartInfoModels(attachments)), attachments[0].0) != []
  {
    var parts := NormAll(PART_INFO, PartInfoModels(attachments));
    NormEach(PART_INFO, PartInfoModels(attachments));
    forall p | p in parts
      ensures IsGzipPart(p)
    {
      var k :| 0 <= k < |parts| && parts[k] == p;
      BuiltPartIsGzip(attachments[k].0);
    }
    BuiltPartIsGzip(attachments[0].0);
    AttachmentUri(attachments[0].0);
    NamedPartIsListed(parts, attachments[0].0);
    assert parts[0] in parts;
  }

  /** An XML document that was compressed once can be decompressed exactly once. */
  lemma {:induction false} GzipOpensOnce(parts: seq<Model>, root: Element, maximumSize: nat, sizeOf: Bytes -> nat)
    requires parts != [] && forall p | p in parts :: IsGzipPart(p)
    requires Repeatedly(parts, Gzip(Xml(root)), maximumSize, sizeOf).Ok?
    ensures Repeatedly(parts, Gzip(Xml(root)), maximumSize, sizeOf) == Ok(Xml(root)) && |parts| == 1
  {
    assert parts[0] in parts;
    if |parts| > 1 {
      SecondGzipFails(parts[1..], root, maximumSize, sizeOf);
    }
  }

  lemma SecondGzipFails(parts: seq<Model>, root: Element, maximumSize: nat, sizeOf: Bytes -> nat)
    requires parts != [] && IsGzipPart(parts[0])
    ensures Repeatedly(parts, Xml(root), maximumSize, sizeOf).Err?
  {
  }

  // ---------------------------------------------------------------- what acceptance of an acknowledged message means

  /** What acceptance with digests establishes about a message that carries signed references. */
  ghost predicate Checked(c: Context, w: Wire, m: Message) {
    && w.soap.Xml?
    && m.envelope.Some?
    && Load(ENVELOPE, w.soap.root) == Ok(m.envelope.value)
    && IndexById(w.soap.root).Ok?
    && ElementsVerify(SignatureReferences(m), IndexById(w.soap.root).value)
    && FindText(w.soap.root, MESSAGE_ID_PATH) == m.messageId
    && RequiredUserMessage(m.envelope.value).Ok?
  }

  ghost predicate CheckedParts(c: Context, w: Wire, m: Message, compressed: map<string, Bytes>)
    requires m.envelope.Some?
  {
    && DecryptedData(c.policy, c.key, SecurityOf(m.envelope.value), w.attachments.parts) == Ok(compressed)
    && AttachmentsVerify(SignatureReferences(m), compressed)
    && RequiredUserMessage(m.envelope.value).Ok?
    && DecompressParts(PartInfos(RequiredUserMessage(m.envelope.value).value), w.attachments.parts, compressed,
                       c.policy.maximumSize, c.sizeOf)
       == Decompressed(m.decrypted, None)
  }

  lemma AcceptedIsChecked(c: Context, w: Wire) returns (compressed: map<string, Bytes>)
    requires Parse(c, w).Returned? && Parse(c, w).message.error.None? && c.policy.verifyDigests
    requires SignatureReferences(Parse(c, w).message) != []
    ensures Checked(c, w, Parse(c, w).message) && SignerVerified(c, w, Parse(c, w).message)
    ensures CheckedParts(c, w, Parse(c, w).message, compressed)
  {
    ResultsAreStaged(c, w);
    compressed := StagedIsChecked(c, w, Parse(c, w).message);
  }

  lemma StagedIsChecked(c: Context, w: Wire, m: Message) returns (compressed: map<string, Bytes>)
    requires Staged(c, w, m) && m.process.Some? && c.policy.verifyDigests && SignatureReferences(m) != []
    ensures Checked(c, w, m) && SignerVerified(c, w, m) && CheckedParts(c, w, m, compressed)
  {
    compressed := DecryptedData(c.policy, c.key, SecurityOf(m.envelope.value), w.attachments.parts).value;
    StageSigned(c.policy, w.soap.root, m);
  }

  lemma StageSigned(policy: SecurityPolicy, doc: Element, m: Message)
    requires m.envelope.Some? && SignatureStage(policy, doc, m.envelope.value, m.signer)
    requires SignatureReferences(m) != []
    ensures m.signer.Some?
  {
  }

  /** A holder of some certificate that the receiver resolved has signed the message, and the signature stage
      was passed. */
  ghost predicate SignerVerified(c: Context, w: Wire, m: Message) {
    && w.soap.Xml? && m.envelope.Some? && m.signer.Some?
    && SignatureStage(c.policy, w.soap.root, m.envelope.value, m.signer)
  }

  /** The header block, the identifier and the payload of an accepted message are the built ones. */
  ghost predicate Agrees(m: Message, input: BuildInput)
    requires Buildable(input) && input.ids.attachments != []
  {
    && m.envelope.Some?
    && MessagingOf(m.envelope.value) == Norm(MESSAGING, UserMessagingModel(input))
    && m.messageId == Plain(input.ids.messageId)
    && AttachmentIdOf(input) in m.decrypted
    && m.decrypted[AttachmentIdOf(input)] == Delivered(input)
  }

  lemma AllowedTransform(transforms: seq<Model>, allowed: string)
    requires transforms != [] && allowed != "" && AttributeOf(transforms[0], Algorithm) == Some(allowed)
    ensures allowed in AlgorithmBag(transforms)
  {
  }

  /** An element reference that verifies compares equal to no built attachment reference. */
  lemma ElementIsNoAttachment(r: Model, e: Element, id: string, content: Bytes)
    requires ElementDigestMatches(r, e) == Matches
    ensures ComparableOf(r) != ComparableOf(AttachmentReference(id, content))
  {
    TransformsDiffer();
    assert EXCLUSIVE_C14N != "";
    assert TransformsOf(r)[0] in TransformsOf(r);
    AllowedTransform(TransformsOf(r), EXCLUSIVE_C14N);
    assert TransformsOf(AttachmentReference(id, content)) == [AlgorithmModel(ATTACHMENT_CONTENT_SIGNATURE)];
    OneTransform(ATTACHMENT_CONTENT_SIGNATURE);
  }

  lemma OneTransform(algorithm: string)
    ensures forall a :: a in AlgorithmBag([AlgorithmModel(algorithm)]) ==> a == algorithm
  {
    assert [AlgorithmModel(algorithm)][1..] == [];
  }

  /** An element reference that verifies and compares equal to a built one was verified on the built element. */
  lemma VerifiedAsBuilt(r: Model, e: Element, id: string, built: Element)
    requires ElementDigestMatches(r, e) == Matches && ComparableOf(r) == ComparableOf(ElementReference(id, built))
    ensures e == built
  {
    BuiltDigestMatches("#" + id, EXCLUSIVE_C14N, Xml(built), Xml(built));
    EqualReferencesAgree(r, ElementReference(id, built), EXCLUSIVE_C14N, Xml(e), Xml(built));
  }

  /** What the build signed: header block, body and payload. */
  function BuiltComparables(input: BuildInput): seq<Comparable>
    requires Buildable(input) && input.ids.attachments != []
  {
    [ComparableOf(ElementReference(input.ids.messagingId, UserMessagingElement(input))),
     ComparableOf(ElementReference(input.ids.bodyId, Dump(BODY, Body, BodyModel(input.ids)))),
     ComparableOf(AttachmentReference(AttachmentIdOf(input), Gzip(Delivered(input))))]
  }

  lemma BuiltAreCompared(input: BuildInput)
    requires Buildable(input) && input.ids.attachments != []
    ensures SignedReferences(BuiltMessage(input)) == BuiltComparables(input)
  {
    BuiltReferences(input);
    HeaderReferenceParts(input.ids, UserMessagingModel(input));
    ThreeComparables(HeaderReferences(input.ids, UserMessagingModel(input)),
                     AttachmentReference(AttachmentIdOf(input), Gzip(Delivered(input))));
  }

  lemma HeaderReferenceParts(ids: References, messaging: Model)
    ensures HeaderReferences(ids, messaging)[0]
         == ElementReference(ids.messagingId, Dump(MESSAGING, Messaging, messaging))
    ensures HeaderReferences(ids, messaging)[1] == ElementReference(ids.bodyId, Dump(BODY, Body, BodyModel(ids)))
  {
  }

  lemma ThreeComparables(header: seq<Model>, attachment: Model)
    requires |header| == 2
    ensures Comparables(header + [attachment])
         == [ComparableOf(header[0]), ComparableOf(header[1]), ComparableOf(attachment)]
  {
  }

  /** A reference that resolves to an element verifies on it and compares equal to a built one. */
  lemma ResolvingReference(references: seq<Model>, index: map<string, Element>, built: seq<Comparable>, e: Element)
    returns (r: Model)
    requires ElementsVerify(references, index) && Resolves(references, index, e)
    requires SetOf(Comparables(references)) <= SetOf(built)
    ensures ElementDigestMatches(r, e) == Matches && ComparableOf(r) in built
  {
    r :| r in references && !IsCid(UriOf(r)) && Target(r, index) == Some(e);
    var k :| 0 <= k < |references| && references[k] == r;
    assert Comparables(references)[k] in SetOf(Comparables(references));
  }

  /** An element that a reference of a message resolves to, when the build signed that reference too, is the
      built header block or the built body. */
  lemma ResolvedWasBuilt(references: seq<Model>, index: map<string, Element>, input: BuildInput, e: Element)
    requires Buildable(input) && input.ids.attachments != []
    requires ElementsVerify(references, index) && Resolves(references, index, e)
    requires SetOf(Comparables(references)) <= SetOf(BuiltComparables(input))
    ensures e == UserMessagingElement(input) || e == Dump(BODY, Body, BodyModel(input.ids))
  {
    var built := BuiltComparables(input);
    var r := ResolvingReference(references, index, built, e);
    VerifiedWasBuilt(r, e, built, input.ids.messagingId, UserMessagingElement(input), input.ids.bodyId,
                     Dump(BODY, Body, BodyModel(input.ids)), AttachmentIdOf(input), Gzip(Delivered(input)));
  }

  lemma VerifiedWasBuilt(r: Model, e: Element, built: seq<Comparable>, id: string, block: Element, id': string,
                         body: Element,
                         attachment: string, content: Bytes)
    requires built == [ComparableOf(ElementReference(id, block)), ComparableOf(ElementReference(id', body)),
                       ComparableOf(AttachmentReference(attachment, content))]
    requires ElementDigestMatches(r, e) == Matches && ComparableOf(r) in built
    ensures e == block || e == body
  {
    ElementIsNoAttachment(r, e, attachment, content);
    if ComparableOf(r) == ComparableOf(ElementReference(id, block)) {
      VerifiedAsBuilt(r, e, id, block);
    } else {
      VerifiedAsBuilt(r, e, id', body);
    }
  }

  // ---------------------------------------------------------------- what one acknowledged reference means

  /** The accepted document holds this element under this identifier. */
  ghost predicate HoldsElement(w: Wire, id: string, built: Element) {
    w.soap.Xml? && IndexById(w.soap.root).Ok? && id in IndexById(w.soap.root).value
    && IndexById(w.soap.root).value[id] == built
  }

  /** The accepted message's attachment decrypts to this content. */
  ghost predicate HoldsAttachment(c: Context, w: Wire, m: Message, id: string, content: Bytes)
    requires m.envelope.Some?
  {
    var compressed := DecryptedData(c.policy, c.key, SecurityOf(m.envelope.value), w.attachments.parts);
    compressed.Ok? && id in compressed.value && compressed.value[id] == content
  }

  /** The message's header block and identifier are the built ones. */
  ghost predicate HeaderAgrees(m: Message, input: BuildInput) {
    && m.envelope.Some?
    && MessagingOf(m.envelope.value) == Norm(MESSAGING, UserMessagingModel(input))
    && m.messageId == Plain(input.ids.messageId)
  }

  /** An acknowledged header block is the one that was built; it is moreover the message's own exactly when
      the document's signature covers its header. */
  ghost predicate HoldsHeader(w: Wire, m: Message, input: BuildInput)
    requires Buildable(input) && input.ids.attachments != []
  {
    BuiltComparables(input)[0] in SignedReferences(m) ==>
      && HoldsElement(w, input.ids.messagingId, UserMessagingElement(input))
      && (HeaderCovered(w.soap.root) <==> MessagingIn(w.soap.root) == UserMessagingElement(input))
      && (HeaderCovered(w.soap.root) ==> HeaderAgrees(m, input))
  }

  ghost predicate HoldsBody(w: Wire, m: Message, input: BuildInput)
    requires Buildable(input) && input.ids.attachments != []
  {
    BuiltComparables(input)[1] in SignedReferences(m) ==>
      HoldsElement(w, input.ids.bodyId, Dump(BODY, Body, BodyModel(input.ids)))
  }

  /** An acknowledged payload is the one that was built, and under the built header what was delivered. */
  ghost predicate HoldsPayload(c: Context, w: Wire, m: Message, input: BuildInput)
    requires Buildable(input) && input.ids.attachments != [] && m.envelope.Some?
  {
    BuiltComparables(input)[2] in SignedReferences(m) ==>
      && HoldsAttachment(c, w, m, AttachmentIdOf(input), Gzip(Delivered(input)))
      && (HeaderAgrees(m, input) ==>
            AttachmentIdOf(input) in m.decrypted && m.decrypted[AttachmentIdOf(input)] == Delivered(input))
  }

  /** Reference by reference, what is acknowledged of a build is held. */
  ghost predicate HoldsAcknowledged(c: Context, w: Wire, m: Message, input: BuildInput)
    requires Buildable(input) && input.ids.attachments != []
  {
    m.envelope.Some? && HoldsHeader(w, m, input) && HoldsBody(w, m, input) && HoldsPayload(c, w, m, input)
  }

  lemma HoldsAcknowledgedElement(w: Wire, m: Message, c: Context, id: string, built: Element)
    requires Checked(c, w, m) && ComparableOf(ElementReference(id, built)) in SignedReferences(m)
    ensures HoldsElement(w, id, built)
  {
    AcknowledgedElement(SignatureReferences(m), IndexById(w.soap.root).value, id, built);
  }

  lemma HeldBlockIsCovered(references: seq<Model>, index: map<string, Element>, id: string, built: Element)
    requires ElementsVerify(references, index) && ComparableOf(ElementReference(id, built)) in Comparables(references)
    ensures Resolves(references, index, built)
  {
    AcknowledgedElement(references, index, id, built);
    var k :| 0 <= k < |references| && Comparables(references)[k] == ComparableOf(ElementReference(id, built));
    assert references[k] in references && UriOf(references[k]) == "#" + id;
    ElementUri(id);
  }

  /** The header of a message whose references the build signed, the header block's among them, is covered
      exactly when it is the built one. */
  lemma AcknowledgedHeaderIsExact(c: Context, w: Wire, m: Message, input: BuildInput)
    requires Buildable(input) && input.ids.attachments != [] && Checked(c, w, m)
    requires SetOf(SignedReferences(m)) <= SetOf(BuiltComparables(input))
    requires BuiltComparables(input)[0] in SignedReferences(m)
    ensures HeaderCovered(w.soap.root) <==> MessagingIn(w.soap.root) == UserMessagingElement(input)
  {
    var doc, references, index := w.soap.root, SignatureReferences(m), IndexById(w.soap.root).value;
    HeldBlockIsCovered(references, index, input.ids.messagingId, UserMessagingElement(input));
    MessagingIsLoaded(doc);
    assert CoversTag(references, index, Messaging) by {
      var r :| r in references && !IsCid(UriOf(r)) && Target(r, index) == Some(UserMessagingElement(input));
    }
    if HeaderCovered(doc) {
      ResolvedWasBuilt(references, index, input, MessagingIn(doc));
    }
  }

  lemma BuiltHeaderAgrees(c: Context, w: Wire, m: Message, input: BuildInput)
    requires Checked(c, w, m) && MessagingIn(w.soap.root) == UserMessagingElement(input)
    ensures HeaderAgrees(m, input)
  {
    HeaderBlockIsLoaded(w.soap.root, UserMessagingModel(input));
    MessagingIsLoaded(w.soap.root);
    BuiltMessageIdIsFound(w.soap.root, input);
  }

  lemma AcknowledgedPayload(c: Context, w: Wire, m: Message, input: BuildInput, compressed: map<string, Bytes>)
    requires Buildable(input) && input.ids.attachments != [] && m.envelope.Some? && CheckedParts(c, w, m, compressed)
    requires MessagingOf(m.envelope.value) == Norm(MESSAGING, UserMessagingModel(input))
    requires ComparableOf(AttachmentReference(AttachmentIdOf(input), Gzip(Delivered(input)))) in SignedReferences(m)
    ensures AttachmentIdOf(input) in m.decrypted && m.decrypted[AttachmentIdOf(input)] == Delivered(input)
  {
    var id := AttachmentIdOf(input);
    var parts := NormAll(PART_INFO, PartInfoModels(input.ids.attachments));
    AcknowledgedAttachment(SignatureReferences(m), compressed, id, Gzip(Delivered(input)));
    BuiltPartsAreReceived(MessagingOf(m.envelope.value), input);
    UnpackedPayload(parts, w.attachments.parts, compressed, m.decrypted, c.policy.maximumSize, c.sizeOf,
                    input.ids.attachments, Delivered(input).root);
  }

  lemma UnpackedPayload(parts: seq<Model>, attachments: map<string, Bytes>, compressed: map<string, Bytes>,
                        decrypted: map<string, Bytes>, maximumSize: nat, sizeOf: Bytes -> nat,
                        built: seq<(string, string)>, root: Element)
    requires built != [] && parts == NormAll(PART_INFO, PartInfoModels(built))
    requires built[0].0 in compressed && compressed[built[0].0] == Gzip(Xml(root))
    requires DecompressParts(parts, attachments, compressed, maximumSize, sizeOf) == Decompressed(decrypted, None)
    ensures built[0].0 in decrypted && decrypted[built[0].0] == Xml(root)
  {
    var id := built[0].0;
    BuiltPartsAreGzip(built);
    DecompressionPerAttachment(parts, attachments, compressed, maximumSize, sizeOf);
    NamedPartIsListed(parts, id);
    GzipOpensOnce(PartsNaming(parts, id), root, maximumSize, sizeOf);
  }

  lemma CheckedHeaderIsHeld(c: Context, w: Wire, m: Message, input: BuildInput)
    requires Buildable(input) && input.ids.attachments != [] && Checked(c, w, m)
    requires SetOf(SignedReferences(m)) <= SetOf(BuiltComparables(input))
    ensures HoldsHeader(w, m, input)
  {
    if BuiltComparables(input)[0] in SignedReferences(m) {
      HoldsAcknowledgedElement(w, m, c, input.ids.messagingId, UserMessagingElement(input));
      AcknowledgedHeaderIsExact(c, w, m, input);
      if HeaderCovered(w.soap.root) {
        BuiltHeaderAgrees(c, w, m, input);
      }
    }
  }

  lemma CheckedBodyIsHeld(c: Context, w: Wire, m: Message, input: BuildInput)
    requires Buildable(input) && input.ids.attachments != [] && Checked(c, w, m)
    ensures HoldsBody(w, m, input)
  {
    var reference := ElementReference(input.ids.bodyId, Dump(BODY, Body, BodyModel(input.ids)));
    assert BuiltComparables(input)[1] == ComparableOf(reference);
    if ComparableOf(reference) in SignedReferences(m) {
      HoldsAcknowledgedElement(w, m, c, input.ids.bodyId, Dump(BODY, Body, BodyModel(input.ids)));
    }
  }

  lemma CheckedPayloadIsHeld(c: Context, w: Wire, m: Message, input: BuildInput, compressed: map<string, Bytes>)
    requires Buildable(input) && input.ids.attachments != [] && Checked(c, w, m) && CheckedParts(c, w, m, compressed)
    ensures HoldsPayload(c, w, m, input)
  {
    if BuiltComparables(input)[2] in SignedReferences(m) {
      AcknowledgedAttachment(SignatureReferences(m), compressed, AttachmentIdOf(input), Gzip(Delivered(input)));
      if HeaderAgrees(m, input) {
        AcknowledgedPayload(c, w, m, input, compressed);
      }
    }
  }

  lemma CheckedIsHeld(c: Context, w: Wire, m: Message, input: BuildInput, compressed: map<string, Bytes>)
    requires Buildable(input) && input.ids.attachments != [] && Checked(c, w, m) && CheckedParts(c, w, m, compressed)
    requires SetOf(SignedReferences(m)) <= SetOf(BuiltComparables(input))
    ensures HoldsAcknowledged(c, w, m, input)
  {
    CheckedHeaderIsHeld(c, w, m, input);
    CheckedBodyIsHeld(c, w, m, input);
    CheckedPayloadIsHeld(c, w, m, input, compressed);
  }

  /** An accepted message, all of whose references a build signed, holds what it acknowledges of that
      build, and was signed by a party the receiver resolved. */
  lemma AcknowledgedContentIsHeld(c: Context, w: Wire, input: BuildInput)
    requires Parse(c, w).Returned? && Parse(c, w).message.error.None? && c.policy.verifyDigests
    requires Buildable(input) && input.ids.attachments != []
    requires SetOf(SignedReferences(Parse(c, w).message)) <= SetOf(SignedReferences(BuiltMessage(input)))
    ensures HoldsAcknowledged(c, w, Parse(c, w).message, input)
    ensures SignedReferences(Parse(c, w).message) != [] ==> SignerVerified(c, w, Parse(c, w).message)
  {
    var m := Parse(c, w).message;
    BuiltAreCompared(input);
    if SignedReferences(m) == [] {
      ResultsAreStaged(c, w);
    } else {
      var compressed := AcceptedIsChecked(c, w);
      CheckedIsHeld(c, w, m, input, compressed);
    }
  }

  /** All three references of a build are held, and the header is the built one exactly when it is covered. */
  ghost predicate HoldsAll(c: Context, w: Wire, m: Message, input: BuildInput)
    requires Buildable(input) && input.ids.attachments != []
  {
    && m.envelope.Some?
    && HoldsElement(w, input.ids.messagingId, UserMessagingElement(input))
    && HoldsElement(w, input.ids.bodyId, Dump(BODY, Body, BodyModel(input.ids)))
    && HoldsAttachment(c, w, m, AttachmentIdOf(input), Gzip(Delivered(input)))
    && (HeaderCovered(w.soap.root) <==> MessagingIn(w.soap.root) == UserMessagingElement(input))
    && (HeaderCovered(w.soap.root) ==> Agrees(m, input))
  }

  /** An accepted message whose references are those of a build holds what they were built over; its header
      is the built one exactly when its signature covers it, and then the message agrees with the build. */
  lemma AcknowledgedContentIsExact(c: Context, w: Wire, input: BuildInput)
    requires Parse(c, w).Returned? && Parse(c, w).message.error.None? && c.policy.verifyDigests
    requires Buildable(input) && input.ids.attachments != []
    requires SetOf(SignedReferences(Parse(c, w).message)) == SetOf(SignedReferences(BuiltMessage(input)))
    ensures HoldsAll(c, w, Parse(c, w).message, input) && SignerVerified(c, w, Parse(c, w).message)
  {
    var m := Parse(c, w).message;
    BuiltAreCompared(input);
    AllBuiltAreIn(BuiltComparables(input), SignedReferences(m));
    AcknowledgedContentIsHeld(c, w, input);
    EachIsHeld(c, w, m, input);
  }

  lemma EachIsHeld(c: Context, w: Wire, m: Message, input: BuildInput)
    requires Buildable(input) && input.ids.attachments != [] && HoldsAcknowledged(c, w, m, input)
    requires BuiltComparables(input)[0] in SignedReferences(m) && BuiltComparables(input)[1] in SignedReferences(m)
    requires BuiltComparables(input)[2] in SignedReferences(m)
    ensures HoldsAll(c, w, m, input)
  {
  }

  /** An accepted message whose references are those of a build agrees with it, when its signature covers
      its header. */
  lemma AcknowledgedContentAgrees(c: Context, w: Wire, input: BuildInput)
    requires Parse(c, w).Returned? && Parse(c, w).message.error.None? && c.policy.verifyDigests
    requires w.soap.Xml? ==> HeaderCovered(w.soap.root)
    requires Buildable(input) && input.ids.attachments != []
    requires SetOf(SignedReferences(Parse(c, w).message)) == SetOf(SignedReferences(BuiltMessage(input)))
    ensures Agrees(Parse(c, w).message, input) && SignerVerified(c, w, Parse(c, w).message)
  {
    AcknowledgedContentIsExact(c, w, input);
  }

  lemma AllBuiltAreIn(built: seq<Comparable>, signed: seq<Comparable>)
    requires |built| == 3 && SetOf(built) <= SetOf(signed)
    ensures built[0] in signed && built[1] in signed && built[2] in signed && signed != []
  {
    assert built[0] in SetOf(built) && built[1] in SetOf(built) && built[2] in SetOf(built);
  }

  // ---------------------------------------------------------------- what acceptance means

  /** What acceptance with digests and coverage of Messaging establishes about a signed message. */
  ghost predicate SignedAndCovered(w: Wire, m: Message) {
    && w.soap.Xml? && m.envelope.Some? && m.signer.Some?
    && Load(ENVELOPE, w.soap.root) == Ok(m.envelope.value)
    && OptionalChild(SecurityOf(m.envelope.value), Signature).Some?
    && VerifySignature(Child(SecurityOf(m.envelope.value), Signature), SignedInfoIn(w.soap.root), m.signer.value)
       == Verified
    && RequiredUserMessage(m.envelope.value).Ok?
    && IndexById(w.soap.root).Ok?
    && EachVerifies(SignatureReferences(m), IndexById(w.soap.root).value)
    && CoversTag(SignatureReferences(m), IndexById(w.soap.root).value, Messaging)
  }

  lemma AcceptedIsSigned(c: Context, w: Wire)
    requires Parse(c, w).Returned? && Parse(c, w).message.error.None? && Parse(c, w).message.signer.Some?
    requires c.policy.verifyDigests && MessagingCovered in c.policy.requiredCoverage
    ensures SignedAndCovered(w, Parse(c, w).message)
  {
    ResultsAreStaged(c, w);
    var m := Parse(c, w).message;
    CoveredTags(SignatureReferences(m), IndexById(w.soap.root).value,
                DeclaredHrefs(RequiredUserMessage(m.envelope.value).value), c.policy.requiredCoverage);
  }

  lemma NoUserMessage(messaging: Model)
    requires Children(messaging, UserMessage) == []
    ensures Children(Norm(MESSAGING, messaging), UserMessage) == []
  {
    NormTags(MESSAGING, messaging, UserMessage);
  }

  /** A user message cannot carry a signal's header block. */
  lemma SignalIsNoMessage(envelope: Model, answered: Message, ids: References, now: Text)
    requires MessagingOf(envelope) == Norm(MESSAGING, SignalMessagingModel(answered, ids, now))
    ensures RequiredUserMessage(envelope).Err?
  {
    NoUserMessage(SignalMessagingModel(answered, ids, now));
  }

  /** A delivered message accepted under an honest party's signature carries the references of one use of
      that party's key, and its header holds the block of that use exactly when its signature covers its
      header. */
  lemma AcceptedIsExact(issued: seq<Issue>, honest: set<Key>, c: Context, w: Wire) returns (i: Issue)
    requires Parse(c, w).Returned? && Parse(c, w).message.error.None? && Parse(c, w).message.signer.Some?
    requires c.policy.verifyDigests && MessagingCovered in c.policy.requiredCoverage
    requires w.soap.Xml? ==> Deliverable(issued, honest, w.soap.root)
    requires Parse(c, w).message.signer.value.key in honest
    ensures i in issued && Genuine(i) && SignerOf(i) == Parse(c, w).message.signer.value.key
    ensures w.soap.Xml?
    ensures SignatureReferences(Parse(c, w).message) == NormAll(REFERENCE, IssuedReferences(i))
    ensures HeaderCovered(w.soap.root) <==> MessagingIn(w.soap.root) == IssuedBlockElement(i)
    ensures HeaderCovered(w.soap.root) ==> i.IssuedMessage?
  {
    var m := Parse(c, w).message;
    AcceptedIsSigned(c, w);
    i := SignatureWasIssued(issued, honest, w.soap.root, m.envelope.value, m.signer.value);
    IssuedHeader(w.soap.root, m.envelope.value, i);
    if HeaderCovered(w.soap.root) && i.IssuedSignal? {
      SignalIsNoMessage(m.envelope.value, Answered(i), i.receiver.ids, i.now);
    }
  }

  /** A delivered message accepted under an honest party's signature carries the references of one use of
      that party's key. Its header holds the block of that use exactly when its signature covers the header,
      and then the party built it: its identifier, header block and payload are the built ones. */
  lemma AcceptedWasBuilt(issued: seq<Issue>, honest: set<Key>, c: Context, w: Wire) returns (i: Issue)
    requires Parse(c, w).Returned? && Parse(c, w).message.error.None? && Parse(c, w).message.signer.Some?
    requires c.policy.verifyDigests && MessagingCovered in c.policy.requiredCoverage
    requires w.soap.Xml? ==> Deliverable(issued, honest, w.soap.root)
    requires Parse(c, w).message.signer.value.key in honest
    ensures i in issued && Genuine(i) && SignerOf(i) == Parse(c, w).message.signer.value.key
    ensures SignatureReferences(Parse(c, w).message) == NormAll(REFERENCE, IssuedReferences(i))
    ensures SignerVerified(c, w, Parse(c, w).message)
    ensures HeaderCovered(w.soap.root) <==> MessagingIn(w.soap.root) == IssuedBlockElement(i)
    ensures HeaderCovered(w.soap.root) ==> i.IssuedMessage? && Agrees(Parse(c, w).message, i.input)
    ensures HeaderCovered(w.soap.root) ==>
              SignedReferences(Parse(c, w).message) == SignedReferences(BuiltMessage(i.input))
  {
    i := AcceptedIsExact(issued, honest, c, w);
    SignedIsVerified(c, w);
    if HeaderCovered(w.soap.root) {
      BuiltReferences(i.input);
      IssuedReferencesAreBuilt(i);
      ComparablesSurviveDump(IssuedReferences(i));
      AcknowledgedContentAgrees(c, w, i.input);
    }
  }

  lemma SignedIsVerified(c: Context, w: Wire)
    requires Parse(c, w).Returned? && Parse(c, w).message.error.None? && Parse(c, w).message.signer.Some?
    ensures SignerVerified(c, w, Parse(c, w).message)
  {
    ResultsAreStaged(c, w);
  }
}
