/** What coverage by tag does not say: in a document with two Messaging elements the signature can cover one
    of them while the header holds the other (as4/core/message.py, as4/core/receipt.py). */
module SplitDocuments {
  import opened Terms
  import opened XmlMapping
  import opened Schemas
  import opened Documents
  import opened Dsig
  import opened Messages
  import opened Peppol
  import opened Receipts
  import opened Builder
  import opened Exchanges
  import opened Envelopes
  import opened Authenticity
  import opened Agreement
  import opened Completeness
  import opened Construction
  import opened Readable
  import opened HonestMessages
  import opened HonestDocuments
  import opened HonestSecurity
  import opened HonestParse
  import opened Identifiers
  import opened HonestRuns
  import opened Deliveries
  import opened HonestNetwork

  const ELSEWHERE := ForeignTag("elsewhere")

  function Aside(signed: Model): Element {
    Element(ELSEWHERE, [], Plain(""), [Dump(MESSAGING, Messaging, signed)])
  }

  /** An envelope with one block in its header, and another below an undeclared child. */
  function SplitElement(security: Model, block: Model, ids: References, signed: Model): Element {
    var e := EnvelopeElement(security, block, ids);
    e.(children := e.children + [Aside(signed)])
  }

  // ---------------------------------------------------------------- what is loaded

  lemma ElsewhereIsUndeclared()
    ensures !Declares(ENVELOPE, ELSEWHERE)
  {
    FieldLater(ENVELOPE, ELSEWHERE);
    FieldLater(ENVELOPE.rest, ELSEWHERE);
  }

  lemma SplitLoads(security: Model, block: Model, ids: References, signed: Model)
    ensures Load(ENVELOPE, SplitElement(security, block, ids, signed))
         == Load(ENVELOPE, EnvelopeElement(security, block, ids))
  {
    ElsewhereIsUndeclared();
    ExtraChildIsIgnored(ENVELOPE, EnvelopeElement(security, block, ids), Aside(signed));
  }

  lemma SplitHeader(security: Model, block: Model, ids: References, signed: Model)
    ensures var doc := SplitElement(security, block, ids, signed);
            var header := Dump(HEADER, Header, HeaderModel(security, block));
            && OnlyTagged(doc, Header, header) && FirstTagged(doc, Header) == header
            && OnlyTagged(header, Messaging, Dump(MESSAGING, Messaging, block))
            && MessagingIn(doc) == Dump(MESSAGING, Messaging, block)
            && SignedInfoIn(doc) == SignedInfoIn(EnvelopeElement(security, block, ids))
  {
    var header := Dump(HEADER, Header, HeaderModel(security, block));
    EnvelopeBlocks(security, block, ids);
    OtherTagIsNotFound(EnvelopeElement(security, block, ids), Header, header, Aside(signed));
  }

  // ---------------------------------------------------------------- identifiers

  lemma AsideIds(signed: Model)
    ensures BagOf(IdsOfAll([Aside(signed)])) == IdsIn(MESSAGING, signed)
  {
    var aside, e := Aside(signed), Dump(MESSAGING, Messaging, signed);
    Identifiers.DumpedIds(MESSAGING, Messaging, signed);
    assert IdsOfAll([e]) == IdAttributes(e);
    assert IdAttributes(aside) == IdsOfAll([e]);
    assert IdsOfAll([aside]) == IdAttributes(aside);
  }

  /** The identifiers of a split document are those of the envelope and those of the block elsewhere. */
  lemma SplitIds(security: Model, block: Model, ids: References, signed: Model)
    ensures BagOf(IdAttributes(SplitElement(security, block, ids, signed)))
         == IdsIn(ENVELOPE, EnvelopeModel(security, block, ids)) + IdsIn(MESSAGING, signed)
  {
    var base, doc := EnvelopeElement(security, block, ids), SplitElement(security, block, ids, signed);
    Identifiers.DumpedIds(ENVELOPE, Envelope, EnvelopeModel(security, block, ids));
    AsideIds(signed);
    IdsOfConcat(base.children, [Aside(signed)]);
    BagOfConcat(OwnIds(doc, doc.attributes), IdsOfAll(doc.children));
    BagOfConcat(OwnIds(base, base.attributes), IdsOfAll(base.children));
    SameOwnIds(base, doc, base.attributes);
  }

  lemma {:induction false} SameOwnIds(e: Element, f: Element, attributes: seq<Attribute>)
    ensures BagOf(OwnIds(e, attributes)) == BagOf(OwnIds(f, attributes))
  {
    if attributes != [] {
      SameOwnIds(e, f, attributes[1..]);
      BagOfConcat(if NamesAnId(attributes[0].name) then [IdEntry(attributes[0].value, e)] else [],
                  OwnIds(e, attributes[1..]));
      BagOfConcat(if NamesAnId(attributes[0].name) then [IdEntry(attributes[0].value, f)] else [],
                  OwnIds(f, attributes[1..]));
    }
  }

  lemma SplitIdsAreDistinct(security: Model, block: Model, ids: References, signed: Model)
    requires ids.bodyId != ""
    requires NoRepetition(IdsIn(SECURITY, security) + IdsIn(MESSAGING, block) + multiset{ids.bodyId}
                          + IdsIn(MESSAGING, signed))
    ensures DistinctIds(IdAttributes(SplitElement(security, block, ids, signed)))
  {
    SplitIds(security, block, ids, signed);
    EnvelopeIds(security, block, ids);
    BagWithoutRepetition(IdAttributes(SplitElement(security, block, ids, signed)));
  }

  lemma SplitBlocksAreListed(security: Model, block: Model, ids: References, signed: Model)
    requires AttributeOf(signed, WsuId) == Some(ids.messagingId) && ids.messagingId != "" && ids.bodyId != ""
    ensures var entries := IdAttributes(SplitElement(security, block, ids, signed));
            && IdEntry(ids.messagingId, Dump(MESSAGING, Messaging, signed)) in entries
            && IdEntry(ids.bodyId, Dump(BODY, Body, BodyModel(ids))) in entries
  {
    var doc, aside := SplitElement(security, block, ids, signed), Aside(signed);
    var e, body := Dump(MESSAGING, Messaging, signed), Dump(BODY, Body, BodyModel(ids));
    IdFields();
    DumpedIdIsListed(MESSAGING, Messaging, signed, ids.messagingId);
    ChildIdsAreListed(aside.children, e, IdEntry(ids.messagingId, e));
    assert IdEntry(ids.messagingId, e) in IdAttributes(aside);
    assert aside in doc.children;
    ChildIdsAreListed(doc.children, aside, IdEntry(ids.messagingId, e));
    EnvelopeBlocks(security, block, ids);
    OtherTagIsNotFound(EnvelopeElement(security, block, ids), Body, body, aside);
    DumpedIdIsListed(BODY, Body, BodyModel(ids), ids.bodyId);
    IdsAreListed(doc, Body, body, IdEntry(ids.bodyId, body));
  }

  /** The header references built for the block elsewhere verify in the split document. */
  lemma SplitReferencesVerify(security: Model, block: Model, ids: References, signed: Model)
    requires AttributeOf(signed, WsuId) == Some(ids.messagingId) && ids.messagingId != "" && ids.bodyId != ""
    requires DistinctIds(IdAttributes(SplitElement(security, block, ids, signed)))
    ensures IndexById(SplitElement(security, block, ids, signed)).Ok?
    ensures var index := IndexById(SplitElement(security, block, ids, signed)).value;
            var read := NormAll(REFERENCE, HeaderReferences(ids, signed));
            && |read| == 2
            && Verifies(read[0], index, Dump(MESSAGING, Messaging, signed))
            && Verifies(read[1], index, Dump(BODY, Body, BodyModel(ids)))
  {
    var doc := SplitElement(security, block, ids, signed);
    IndexIsExact(doc);
    SplitBlocksAreListed(security, block, ids, signed);
    var index := IndexById(doc).value;
    ElementReferenceVerifies(ids.messagingId, Dump(MESSAGING, Messaging, signed), index);
    ElementReferenceVerifies(ids.bodyId, Dump(BODY, Body, BodyModel(ids)), index);
    NormEach(REFERENCE, HeaderReferences(ids, signed));
  }

  /** Coverage by tag is satisfied, but the header is not what is covered. */
  lemma SplitHeaderIsNotCovered(security: Model, block: Model, ids: References, signed: Model, payloads: seq<Model>,
                                envelope: Model)
    requires AttributeOf(signed, WsuId) == Some(ids.messagingId) && ids.messagingId != "" && ids.bodyId != ""
    requires DistinctIds(IdAttributes(SplitElement(security, block, ids, signed)))
    requires Load(ENVELOPE, SplitElement(security, block, ids, signed)) == Ok(envelope)
    requires ReferencesIn(envelope) == NormAll(REFERENCE, HeaderReferences(ids, signed) + payloads)
    requires forall r | r in payloads :: IsCid(UriOf(r))
    requires Dump(MESSAGING, Messaging, block) != Dump(MESSAGING, Messaging, signed)
    ensures !HeaderCovered(SplitElement(security, block, ids, signed))
  {
    var doc := SplitElement(security, block, ids, signed);
    SplitReferencesVerify(security, block, ids, signed);
    var index := IndexById(doc).value;
    PrefixReadsBack(HeaderReferences(ids, signed), payloads);
    SplitHeader(security, block, ids, signed);
    var read := ReferencesIn(envelope);
    VerifiedTagIsCovered(read, 0, index, Dump(MESSAGING, Messaging, signed));
    AllButPayloadsVerify(read, HeaderReferences(ids, signed), payloads, index, Dump(MESSAGING, Messaging, signed),
                         Dump(BODY, Body, BodyModel(ids)));
    CoveredMessagingIsSigned(ids, signed, payloads, index);
  }

  lemma PrefixReadsBack(references: seq<Model>, more: seq<Model>)
    ensures |NormAll(REFERENCE, references + more)| == |references| + |more|
    ensures forall k :: 0 <= k < |references| ==>
              NormAll(REFERENCE, references + more)[k] == NormAll(REFERENCE, references)[k]
  {
    NormEach(REFERENCE, references);
    NormEach(REFERENCE, references + more);
  }

  lemma AllButPayloadsVerify(read: seq<Model>, header: seq<Model>, payloads: seq<Model>, index: map<string, Element>,
                             e: Element, f: Element)
    requires read == NormAll(REFERENCE, header + payloads) && |header| == 2 && |read| == 2 + |payloads|
    requires Verifies(read[0], index, e) && Verifies(read[1], index, f)
    requires forall r | r in payloads :: IsCid(UriOf(r))
    ensures EachVerifies(read, index)
  {
    forall k | 0 <= k < |read|
      ensures k >= 2 ==> IsCid(UriOf(read[k]))
    {
      ReadReference(header + payloads, k);
      assert k >= 2 ==> (header + payloads)[k] in payloads;
    }
  }

  lemma DifferentIdsDiffer(block: Model, signed: Model, id: string, id': string)
    requires AttributeOf(block, WsuId) == Some(id) && AttributeOf(signed, WsuId) == Some(id') && id != id' && id != ""
    requires id' != ""
    ensures Dump(MESSAGING, Messaging, block) != Dump(MESSAGING, Messaging, signed)
  {
    IdFields();
    DumpedAttributeMap(MESSAGING, block);
    NormAttributes(MESSAGING, block, WsuId);
    DumpedAttributeMap(MESSAGING, signed);
    NormAttributes(MESSAGING, signed, WsuId);
  }

  // ---------------------------------------------------------------- signals

  /** A signed answer to `m`, with the block that would answer `m'` in its header. */
  function SplitSignal(m: Message, m': Message, own: Credentials, ids: References, ids': References, now: Text,
                       now': Text): Element {
    SplitElement(SecurityModelOf(m, own, ids, now), SignalMessagingModel(m', ids', now'), ids,
                 SignalMessagingModel(m, ids, now))
  }

  lemma SplitSignalLoads(m: Message, m': Message, own: Credentials, ids: References, ids': References, now: Text,
                         now': Text)
    returns (envelope: Model)
    requires SignalPrepared(own, ids, now) && Answerable(m') && !Blank(Plain(ids'.messageId)) && !Blank(now')
    ensures Load(ENVELOPE, SplitSignal(m, m', own, ids, ids', now, now')) == Ok(envelope)
    ensures SecurityOf(envelope) == Norm(SECURITY, SecurityModelOf(m, own, ids, now))
    ensures MessagingOf(envelope) == Norm(MESSAGING, SignalMessagingModel(m', ids', now'))
  {
    HeaderReferencesAreComplete(ids, SignalMessagingModel(m, ids, now));
    SignalSecurityIsComplete(ids, own, SignalReferences(m, ids, now));
    AnswerableIsComplete(m', ids', now');
    SignalMessagingIsComplete(m', ids', now');
    envelope := BuiltEnvelopeLoads(SecurityModelOf(m, own, ids, now), SignalMessagingModel(m', ids', now'), ids);
    SplitLoads(SecurityModelOf(m, own, ids, now), SignalMessagingModel(m', ids', now'), ids,
               SignalMessagingModel(m, ids, now));
  }

  lemma SplitContentPasses(security: Model, block: Model, ids: References, signed: Model)
    requires AttributeOf(signed, WsuId) == Some(ids.messagingId) && ids.messagingId != "" && ids.bodyId != ""
    requires DistinctIds(IdAttributes(SplitElement(security, block, ids, signed)))
    ensures SignalContentProblem(SplitElement(security, block, ids, signed),
                                 NormAll(REFERENCE, HeaderReferences(ids, signed))).None?
  {
    SplitReferencesVerify(security, block, ids, signed);
    var index := IndexById(SplitElement(security, block, ids, signed)).value;
    var read := NormAll(REFERENCE, HeaderReferences(ids, signed));
    VerifiedPairPasses(read, index, Dump(MESSAGING, Messaging, signed), Dump(BODY, Body, BodyModel(ids)));
    VerifiedBlockIsCovered(read, index, Dump(MESSAGING, Messaging, signed));
  }

  lemma SplitSignatureVerifies(security: Model, block: Model, own: Credentials, ids: References, signed: Model,
                               envelope: Model)
    requires security == SignalSecurityModel(ids, own, HeaderReferences(ids, signed))
    requires own.certificate.rsa && own.certificate.key == own.key && ids.signatureTokenId != ""
    requires AttributeOf(signed, WsuId) == Some(ids.messagingId) && ids.messagingId != "" && ids.bodyId != ""
    requires DistinctIds(IdAttributes(SplitElement(security, block, ids, signed)))
    requires SecurityOf(envelope) == Norm(SECURITY, security)
    ensures SignalProblem(SplitElement(security, block, ids, signed), envelope, own.certificate).None?
    ensures ReferencesIn(envelope) == NormAll(REFERENCE, HeaderReferences(ids, signed))
  {
    var doc, references := SplitElement(security, block, ids, signed), HeaderReferences(ids, signed);
    var signature := SignatureOf(ids, own.key, references);
    SignalSecurityParts(ids, own, references);
    SecurityReadsBack(security, signature, [TokenModel(ids.signatureTokenId, own.certificate)]);
    SigningTokenReadsBack(security, ids, own.key, references, [TokenModel(ids.signatureTokenId, own.certificate)],
                          own.certificate);
    SignatureModelParts(ids, own.key, references);
    SplitHeader(security, block, ids, signed);
    SignedInfoIsFound(security, block, ids, signature, references);
    BuiltSignatureVerifies(ids, own.key, references, own.certificate);
    SplitContentPasses(security, block, ids, signed);
    var read := Norm(SECURITY, security);
    SignalPasses(doc, envelope, read, Norm(SIGNATURE, signature), SigningToken(read, Norm(SIGNATURE, signature)),
                 own.certificate);
  }

  lemma AnsweringEnvelopeIsRead(doc: Element, envelope: Model, m: Message, expected: Certificate)
    requires Load(ENVELOPE, doc) == Ok(envelope) && SignalProblem(doc, envelope, expected).None?
    requires Authenticity.Answers(envelope, m) && (m.messageId == Plain("") ==> m.error.Some?)
    ensures ReadSignal(Xml(doc), expected) == Ok(Signal(envelope, OriginalMessageId(envelope)))
  {
    ReadSignalIs(doc, envelope, expected);
  }

  /** The signature of a split document, and its header. */
  lemma SplitIsUncovered(security: Model, block: Model, ids: References, signed: Model, envelope: Model, id: string)
    requires AttributeOf(signed, WsuId) == Some(ids.messagingId) && ids.messagingId != "" && ids.bodyId != ""
    requires AttributeOf(block, WsuId) == Some(id) && id != ids.messagingId && id != ""
    requires DistinctIds(IdAttributes(SplitElement(security, block, ids, signed)))
    requires Load(ENVELOPE, SplitElement(security, block, ids, signed)) == Ok(envelope)
    requires ReferencesIn(envelope) == NormAll(REFERENCE, HeaderReferences(ids, signed))
    ensures !HeaderCovered(SplitElement(security, block, ids, signed))
  {
    DifferentIdsDiffer(block, signed, id, ids.messagingId);
    assert HeaderReferences(ids, signed) + [] == HeaderReferences(ids, signed);
    SplitHeaderIsNotCovered(security, block, ids, signed, [], envelope);
  }

  /** A split signal is read as the answer to a message that it does not answer: coverage of some Messaging
      element is checked, coverage of the header is not. */
  lemma SplitSignalIsRead(m: Message, m': Message, own: Credentials, ids: References, ids': References, now: Text,
                          now': Text)
    requires SignalPrepared(own, ids, now) && Answerable(m') && !Blank(Plain(ids'.messageId)) && !Blank(now')
    requires ids'.messagingId != "" && ids'.messagingId != ids.messagingId
    requires DistinctIds(IdAttributes(SplitSignal(m, m', own, ids, ids', now, now')))
    ensures var doc := SplitSignal(m, m', own, ids, ids', now, now');
            var read := ReadSignal(Xml(doc), own.certificate);
            && read.Ok? && Authenticity.Answers(read.value.envelope, m')
            && read.value == Signal(read.value.envelope, OriginalMessageId(read.value.envelope))
            && !HeaderCovered(doc)
  {
    var envelope := SplitSignalLoads(m, m', own, ids, ids', now, now');
    GenuineSignalAnswers(envelope, m', ids', now');
    SplitSignatureVerifies(SecurityModelOf(m, own, ids, now), SignalMessagingModel(m', ids', now'), own, ids,
                           SignalMessagingModel(m, ids, now), envelope);
    AnsweringEnvelopeIsRead(SplitSignal(m, m', own, ids, ids', now, now'), envelope, m', own.certificate);
    SplitIsUncovered(SecurityModelOf(m, own, ids, now), SignalMessagingModel(m', ids', now'), ids,
                     SignalMessagingModel(m, ids, now), envelope, ids'.messagingId);
  }

  /** The identifiers of a split signal are distinct when the two header blocks' are and no receipt copies any. */
  lemma SplitSignalIds(m: Message, m': Message, own: Credentials, ids: References, ids': References, now: Text,
                       now': Text)
    requires SignalNamed(ids) && ids'.messagingId != "" && NoRepetition(SignalIdBag(ids) + multiset{ids'.messagingId})
    requires CopiedIds(m) == multiset{} && CopiedIds(m') == multiset{}
    ensures DistinctIds(IdAttributes(SplitSignal(m, m', own, ids, ids', now, now')))
  {
    var security := multiset{ids.signatureTokenId} + SignatureIdBag(ids);
    SignalSecurityIds(ids, own, SignalReferences(m, ids, now));
    SignalMessagingIds(m, ids, now);
    SignalMessagingIds(m', ids', now');
    Regrouped(security, multiset{ids'.messagingId}, multiset{ids.bodyId}, multiset{ids.messagingId});
    SplitIdsAreDistinct(SecurityModelOf(m, own, ids, now), SignalMessagingModel(m', ids', now'), ids,
                        SignalMessagingModel(m, ids, now));
  }

  lemma Regrouped(a: multiset<string>, b: multiset<string>, c: multiset<string>, d: multiset<string>)
    ensures a + (multiset{} + b) + c + (multiset{} + d) == a + d + c + b
  {
  }

  // ---------------------------------------------------------------- an acknowledgement of nothing

  lemma BuiltIsAnswerable(i: BuildInput)
    requires HonestContent(i)
    ensures Answerable(BuiltMessage(i)) && CopiedIds(BuiltMessage(i)) == multiset{}
  {
    BuiltReferences(i);
    BuiltReferencesAreSound(i);
    AllCompleteIsEach(REFERENCE, BuiltReferencesOf(i));
    SoundReferencesCarryNothing(BuiltReferencesOf(i));
    TidyEnds(i.ids.messageId);
  }

  lemma SoundReferencesCarryNothing(references: seq<Model>)
    requires forall r | r in references :: SoundReference(r)
    ensures IdsInAll(REFERENCE, references) == multiset{} && forall k :: 0 <= k < |references| ==>
              Complete(REFERENCE, references[k])
  {
    BuiltReferencesHaveNoId(references);
    assert forall k :: 0 <= k < |references| ==> references[k] in references;
  }

  lemma AnswerToOwnMessage(s: SenderState, i: BuildInput, data: Bytes)
    requires HonestContent(i) && HasBuilt(s, i)
    requires ReadSignal(data, s.remote.certificate).Ok?
    requires var signal := ReadSignal(data, s.remote.certificate).value;
             && signal == Signal(signal.envelope, OriginalMessageId(signal.envelope))
             && Authenticity.Answers(signal.envelope, BuiltMessage(i))
    ensures AfterSignal(s, data).raised.None? && AfterSignal(s, data).sender.state == Acknowledged
  {
    NonRepudiationIsInclusion(ReadSignal(data, s.remote.certificate).value, s.signed, s.required);
  }

  /** Without coverage of the header agreement fails: from any signed answer of the expected signer, also the
      refusal of another message, a document can be put together that acknowledges an exchange whose
      message nobody has accepted. */
  lemma UncoveredHeaderAcknowledges(s: SenderState, i: BuildInput, m: Message, own: Credentials, ids: References,
                                    now: Text,
                                    ids': References, now': Text)
    requires HonestContent(i) && HasBuilt(s, i) && s.remote.certificate == own.certificate
    requires m.error.Some? && SignalPrepared(own, ids, now)
    requires !Blank(Plain(ids'.messageId)) && !Blank(now') && ids'.messagingId != ""
    requires SignalNamed(ids) && NoRepetition(SignalIdBag(ids) + multiset{ids'.messagingId})
    ensures var doc := SplitSignal(m, BuiltMessage(i), own, ids, ids', now, now');
            && !HeaderCovered(doc)
            && AfterSignal(s, Xml(doc)).raised.None?
            && AfterSignal(s, Xml(doc)).sender.state == Acknowledged
  {
    BuiltIsAnswerable(i);
    SplitSignalIds(m, BuiltMessage(i), own, ids, ids', now, now');
    SeparateIds(SignalIdBag(ids), ids'.messagingId, ids.messagingId);
    SplitSignalIsRead(m, BuiltMessage(i), own, ids, ids', now, now');
    AnswerToOwnMessage(s, i, Xml(SplitSignal(m, BuiltMessage(i), own, ids, ids', now, now')));
  }

  lemma SeparateIds(bag: multiset<string>, id: string, id': string)
    requires NoRepetition(bag + multiset{id}) && id' in bag
    ensures id != id'
  {
    assert id' in bag + multiset{id};
  }

  // ---------------------------------------------------------------- it can be put together

  lemma SplitNodes(security: Model, block: Model, ids: References, signed: Model)
    ensures forall n :: n in Nodes(SplitElement(security, block, ids, signed)) ==>
              || n == SplitElement(security, block, ids, signed)
              || n == Aside(signed)
              || n in Nodes(EnvelopeElement(security, block, ids))
              || n in Nodes(Dump(MESSAGING, Messaging, signed))
  {
    var e, aside := Dump(MESSAGING, Messaging, signed), Aside(signed);
    NodesOfConcat(EnvelopeElement(security, block, ids).children, [aside]);
    assert NodesOfAll([e]) == Nodes(e);
    assert NodesOfAll([aside]) == Nodes(aside);
  }

  /** The only signature value in a split document is the one that its envelope was signed with. */
  lemma SplitSigns(security: Model, block: Model, ids: References, signed: Model, t: Text)
    requires SignsOnly(SECURITY, security, t) && SignsOnly(MESSAGING, block, t) && SignsOnly(MESSAGING, signed, t)
    ensures forall n :: n in Nodes(SplitElement(security, block, ids, signed)) && n.text.SignatureText? ==> n.text == t
  {
    EnvelopeSigns(security, block, ids, t);
    DumpSignsOnly(MESSAGING, Messaging, signed, t);
    SplitNodes(security, block, ids, signed);
    assert EnvelopeElement(security, block, ids) in Nodes(EnvelopeElement(security, block, ids));
  }

  /** The split document of `UncoveredHeaderAcknowledges` holds no signature but the issued one. */
  lemma SplitSignalIsDeliverable(issued: seq<Issue>, honest: set<Key>, a: Issue, i: BuildInput, ids': References,
                                 now': Text)
    requires a in issued && a.IssuedSignal? && Genuine(a) && Answered(a).error.Some?
    requires Answered(a).messageId.Plain? && a.now.Plain? && now'.Plain?
    requires Buildable(i) && i.ids.attachments != []
    ensures Deliverable(issued, honest,
                        SplitSignal(Answered(a), BuiltMessage(i), a.receiver.local.credentials, a.receiver.ids, ids',
                                    a.now, now'))
  {
    var m, own, ids := Answered(a), a.receiver.local.credentials, a.receiver.ids;
    var references := SignalReferences(m, ids, a.now);
    var t := Signed(own.key, references);
    HeaderReferencesAreDigestOnly(ids, SignalMessagingModel(m, ids, a.now));
    SignalSecuritySignsOnce(ids, own, references);
    RefusalSignsNothing(m, ids, a.now, t);
    SignalBlockSigns(m, ids, a.now, t);
    BuiltReferences(i);
    BuiltReferencesAreDigestOnly(i);
    ReceiptMessagingSignsNothing(BuiltMessage(i), ids', now', t);
    SplitSigns(SecurityModelOf(m, own, ids, a.now), SignalMessagingModel(BuiltMessage(i), ids', now'), ids,
               SignalMessagingModel(m, ids, a.now), t);
    IssuedReferencesAreBuilt(a);
    IssuedDocumentIsDeliverable(issued, honest, SplitSignal(m, BuiltMessage(i), own, ids, ids', a.now, now'), a);
  }

  // ---------------------------------------------------------------- user messages

  /** A signed user message, with another header block in its header. */
  function SplitMessage(i: BuildInput, j: BuildInput): Element
    requires Buildable(i) && i.ids.attachments != []
  {
    SplitElement(UserSecurityModel(i, BuiltReferencesOf(i)), UserMessagingModel(j), i.ids, UserMessagingModel(i))
  }

  /** The split document of `UncoveredHeaderIsAccepted` holds no signature but the issued one. */
  lemma SplitMessageIsDeliverable(issued: seq<Issue>, honest: set<Key>, i: BuildInput, j: BuildInput)
    requires Buildable(i) && PlainHeader(i) && PlainHeader(j) && IssuedMessage(i) in issued
    ensures Deliverable(issued, honest, SplitMessage(i, j))
  {
    var references := BuiltReferencesOf(i);
    var t := Signed(i.local.credentials.key, references);
    BuiltReferencesAreDigestOnly(i);
    UserSecuritySignsOnce(i, references);
    UserMessagingSignsNothing(i, t);
    UserMessagingSignsNothing(j, t);
    SplitSigns(UserSecurityModel(i, references), UserMessagingModel(j), i.ids, UserMessagingModel(i), t);
    IssuedReferencesAreBuilt(IssuedMessage(i));
    IssuedDocumentIsDeliverable(issued, honest, SplitMessage(i, j), IssuedMessage(i));
  }

  lemma SplitMessageIds(i: BuildInput, j: BuildInput)
    requires HonestContent(i) && j.ids.messagingId != "" && SignatureNamed(i.ids) && i.ids.encryptedKeyId != ""
    requires NoRepetition(UserSecurityIdBag(i.ids) + multiset{j.ids.messagingId} + multiset{i.ids.bodyId}
                          + multiset{i.ids.messagingId})
    ensures DistinctIds(IdAttributes(SplitMessage(i, j)))
  {
    BuiltReferencesAreSound(i);
    UserSecurityIds(i, BuiltReferencesOf(i));
    UserMessagingIds(i);
    UserMessagingIds(j);
    SplitIdsAreDistinct(UserSecurityModel(i, BuiltReferencesOf(i)), UserMessagingModel(j), i.ids,
                        UserMessagingModel(i));
  }

  lemma SplitMessageLoads(i: BuildInput, j: BuildInput) returns (envelope: Model)
    requires HonestContent(i) && SameHeading(i, j)
    ensures Load(ENVELOPE, SplitMessage(i, j)) == Ok(envelope) && CarriedEnvelope(i, j, envelope)
  {
    UserMessagingIsWellFormed(j);
    MessagingAliases();
    WellFormedIsComplete(MESSAGING, UserMessagingModel(j));
    WellFormedNorm(MESSAGING, UserMessagingModel(j));
    UserReferencesAreComplete(i, Gzip(Delivered(i)));
    UserSecurityIsComplete(i, BuiltReferencesOf(i));
    envelope := BuiltEnvelopeLoads(UserSecurityModel(i, BuiltReferencesOf(i)), UserMessagingModel(j), i.ids);
    SplitLoads(UserSecurityModel(i, BuiltReferencesOf(i)), UserMessagingModel(j), i.ids, UserMessagingModel(i));
  }

  lemma SplitIdsAreRead(i: BuildInput, j: BuildInput)
    requires HonestContent(i) && SameHeading(i, j)
    ensures ReadIds(SplitMessage(i, j)) == Ok((Plain(j.ids.messageId), j.ids.messagingId))
    ensures AddressedTo(SplitMessage(i, j)) == Ok(j.remote.identity)
  {
    var doc := SplitMessage(i, j);
    var header := Dump(HEADER, Header, HeaderModel(UserSecurityModel(i, BuiltReferencesOf(i)), UserMessagingModel(j)));
    SplitHeader(UserSecurityModel(i, BuiltReferencesOf(i)), UserMessagingModel(j), i.ids, UserMessagingModel(i));
    HeadingIsRead(doc, header, j);
  }

  lemma SplitReferencesHold(i: BuildInput, j: BuildInput)
    requires HonestContent(i) && DistinctIds(IdAttributes(SplitMessage(i, j)))
    ensures IndexById(SplitMessage(i, j)).Ok?
    ensures ReferencesHold(NormAll(REFERENCE, BuiltReferencesOf(i)), IndexById(SplitMessage(i, j)).value,
                           UserMessagingElement(i),
                           Dump(BODY, Body, BodyModel(i.ids)), AttachmentIdOf(i), Gzip(Delivered(i)))
  {
    UserBlockIsNamed(i);
    SplitReferencesVerify(UserSecurityModel(i, BuiltReferencesOf(i)), UserMessagingModel(j), i.ids,
                          UserMessagingModel(i));
    ThreeReferencesReadBack(HeaderReferences(i.ids, UserMessagingModel(i)), AttachmentIdOf(i), Gzip(Delivered(i)));
  }

  lemma SplitMessageCarries(i: BuildInput, j: BuildInput) returns (envelope: Model)
    requires HonestContent(i) && SameHeading(i, j) && DistinctIds(IdAttributes(SplitMessage(i, j)))
    ensures Carries(SplitMessage(i, j), i, j, envelope)
  {
    envelope := SplitMessageLoads(i, j);
    SplitIdsAreRead(i, j);
    SplitHeader(UserSecurityModel(i, BuiltReferencesOf(i)), UserMessagingModel(j), i.ids, UserMessagingModel(i));
    UserSignedInfoIsFound(i, UserMessagingModel(j));
    SplitReferencesHold(i, j);
  }

  /** Without coverage of the header acceptance fails to mean what was built: a document under an honest
      signature is accepted with the identifier of a message that its signer never built. */
  lemma UncoveredHeaderIsAccepted(c: Context, i: BuildInput, j: BuildInput)
    requires HonestContent(i) && Welcomes(c, i) && SameHeading(i, j) && SignatureNamed(i.ids)
    requires i.ids.encryptedKeyId != ""
    requires NoRepetition(UserSecurityIdBag(i.ids) + multiset{j.ids.messagingId} + multiset{i.ids.bodyId}
                          + multiset{i.ids.messagingId})
    requires j.ids.messageId != i.ids.messageId
    ensures var w := Wire(Xml(SplitMessage(i, j)), SealedAttachments(i));
            && Parse(c, w).Returned? && Parse(c, w).message.error.None?
            && Parse(c, w).message.signer == Some(i.local.credentials.certificate)
            && Parse(c, w).message.messageId == Plain(j.ids.messageId)
            && !Agrees(Parse(c, w).message, i)
  {
    SplitMessageIds(i, j);
    var envelope := SplitMessageCarries(i, j);
    CarriedMessageIsAccepted(c, SplitMessage(i, j), i, j, envelope);
    assert BuiltMessage(i).error.None?;
  }
}
