/** What a receiving exchange answers, and whom it believes it is answering (as4/core/exchange.py). */
module Answers {
  import opened Terms
  import opened XmlMapping
  import opened Documents
  import opened Errors
  import opened Messages
  import opened Peppol
  import opened Receipts
  import opened Builder
  import opened Exchanges
  import opened Envelopes
  import opened Acceptance
  import opened Authenticity
  import opened Agreement
  import opened Readable
  import opened Identifiers
  import opened Judgements
  import opened ParseJudgements
  import opened SignalJudgements
  import opened BuiltContent

  /** A receipt for these references. */
  predicate IsReceipt(s: Signal, references: seq<Model>) {
    ReceiptOf(s).Some? && ErrorsOf(s) == [] && AcknowledgedModels(s) == references
  }

  /** A signal with this one error. */
  predicate IsError(s: Signal, r: Refusal) {
    && ReceiptOf(s).None?
    && |ErrorsOf(s)| == 1
    && AttributeOf(ErrorsOf(s)[0], ErrorCode) == Some(ErrorCodeOf(r))
    && TextOf(Child(ErrorsOf(s)[0], ErrorDetail)) == Plain(DetailOf(r))
  }

  lemma {:induction false} PartsHoldReferences(references: seq<Model>, parts: seq<Model>)
    requires |parts| == |references| && forall i :: 0 <= i < |parts| ==>
               Children(parts[i], Reference) == [references[i]]
    ensures ReferencesInside(parts) == references
  {
    if parts != [] {
      PartsHoldReferences(references[1..], parts[1..]);
      assert references == [references[0]] + references[1..];
    }
  }

  lemma ReceiptHolds(references: seq<Model>)
    ensures ReferencesInside(Children(Child(ReceiptModel(references), NonRepudiationInformation),
                                      MessagePartNRInformation))
         == references
  {
    ReceiptModelAcknowledges(references);
    PartsHold(references);
    PartsHoldReferences(references, PartModels(references));
  }

  lemma SignalContent(m: Message, own: Credentials, ids: References, now: Text)
    ensures SignalMessageOf(SignalEnvelope(m, own, ids, now)) == SignalMessageModel(m, ids, now)
  {
    EnvelopeParts(SecurityModelOf(m, own, ids, now), SignalMessagingModel(m, ids, now), ids);
    assert Children(SignalMessagingModel(m, ids, now), SignalMessage) == [SignalMessageModel(m, ids, now)];
  }

  lemma ErrorModelHolds(r: Refusal)
    ensures AttributeOf(ErrorModel(r), ErrorCode) == Some(ErrorCodeOf(r))
    ensures TextOf(Child(ErrorModel(r), ErrorDetail)) == Plain(DetailOf(r))
  {
  }

  lemma BuiltSignal(m: Message, own: Credentials, ids: References, now: Text)
    ensures var s := Signal(SignalEnvelope(m, own, ids, now), None);
            if m.error.Some? then IsError(s, m.error.value) else IsReceipt(s, SignatureReferences(m))
  {
    SignalContent(m, own, ids, now);
    SignalParts(m, ids, now);
    if m.error.Some? {
      ErrorModelHolds(m.error.value);
    } else {
      ReceiptHolds(SignatureReferences(m));
    }
  }

  /** After receive, the stored signal is a receipt for the message's own references exactly when the state
      is RECEIVED, and a single error with the refusal's code and detail exactly when it is REJECTED. */
  lemma AnswerMatchesState(r: ReceiverState, c: Context, unpacked: Unpacked, now: Text)
    requires ParseMessage(c, unpacked).Returned?
    ensures var m := ParseMessage(c, unpacked).message;
            var after := AfterReceive(r, c, unpacked, now);
            && after.receipt.Some?
            && (after.state == Received || after.state == Rejected)
            && (after.state == Received <==> m.error.None?)
            && (after.state == Received <==> IsReceipt(after.receipt.value, SignatureReferences(m)))
            && (after.state == Rejected <==> m.error.Some? && IsError(after.receipt.value, m.error.value))
  {
    BuiltSignal(ParseMessage(c, unpacked).message, r.local.credentials, r.ids, now);
  }

  /** The error that the header block of a signal carries. */
  predicate HasError(messaging: Model, code: string) {
    var signal := Child(messaging, SignalMessage);
    && |Children(signal, Error)| == 1
    && AttributeOf(Child(signal, Error), ErrorCode) == Some(code)
    && AttributeOf(Child(signal, Error), Severity) == Some(if code == "EBMS:0002" then "warning" else "failure")
  }

  lemma CarriedError(m: Message, ids: References, now: Text, code: string)
    requires m.error.Some? && Carries(m.error.value, code)
    ensures HasError(SignalMessagingModel(m, ids, now), code)
  {
    SignalMessageFields(m, ids, now);
    assert Children(SignalMessagingModel(m, ids, now), SignalMessage) == [SignalMessageModel(m, ids, now)];
  }

  predicate HasDetail(messaging: Model, detail: string) {
    TextOf(Child(Child(Child(messaging, SignalMessage), Error), ErrorDetail)) == Plain(detail)
  }

  /** The hook's own refusal is answered with its code and its reason, and a recipient that is not serviced as
      such. */
  ghost predicate SaysHook(messaging: Model, r: Refusal) {
    && (r.PeppolNotServiced? ==> HasError(messaging, "EBMS:0004") && HasDetail(messaging, "PEPPOL:NOT_SERVICED"))
    && (r.Custom? ==>
          && |Children(Child(messaging, SignalMessage), Error)| == 1
          && AttributeOf(Child(Child(messaging, SignalMessage), Error), ErrorCode) == Some(r.code)
          && HasDetail(messaging, r.reason))
  }

  lemma HookIsSaid(m: Message, ids: References, now: Text)
    requires m.error.Some?
    ensures SaysHook(SignalMessagingModel(m, ids, now), m.error.value)
  {
    SignalMessageFields(m, ids, now);
    assert Children(SignalMessagingModel(m, ids, now), SignalMessage) == [SignalMessageModel(m, ids, now)];
    if m.error.value.PeppolNotServiced? {
      RoutingCode(PeppolNotServiced);
    }
  }

  lemma AnswerIsStored(r: ReceiverState, c: Context, w: Wire, now: Text)
    requires Parse(c, w).Returned?
    ensures var m, after := Parse(c, w).message, AfterReceive(r, c, Ok(w), now);
            && after.receipt.Some?
            && after.receipt.value.envelope == SignalEnvelope(m, r.local.credentials, r.ids, now)
            && after.state == if m.error.Some? then Rejected else Received
  {
  }

  /** Every answer says why: the exchange is RECEIVED exactly when nothing is wrong with the message, and
      otherwise the signal that it stores carries the code of the first thing that is. */
  lemma AnswerSaysWhy(r: ReceiverState, c: Context, w: Wire, now: Text)
    requires Parse(c, w).Returned?
    ensures var after := AfterReceive(r, c, Ok(w), now);
            && after.receipt.Some?
            && (after.state == Received <==> ParseJudgement(c, w) == Passes)
            && (after.state == Rejected <==> ParseJudgement(c, w).Answered? || ParseJudgement(c, w).ByHook?)
            && SaysSignal(MessagingOf(after.receipt.value.envelope), Parse(c, w).message, r.ids, now)
            && SaysSignalEnvelope(after.receipt.value.envelope, r.local.credentials, r.ids)
            && (ParseJudgement(c, w).Answered? ==>
                  HasError(MessagingOf(after.receipt.value.envelope), ParseJudgement(c, w).code))
            && (Parse(c, w).message.error.Some? ==>
                  SaysHook(MessagingOf(after.receipt.value.envelope), Parse(c, w).message.error.value))
  {
    var m := Parse(c, w).message;
    AnswerIsStored(r, c, w, now);
    ParseIsJudged(c, w);
    SignalEnvelopeSays(m, r.local.credentials, r.ids, now);
    BuiltSignalSays(m, r.ids, now);
    if ParseJudgement(c, w).Answered? {
      CarriedError(m, r.ids, now, ParseJudgement(c, w).code);
    }
    if m.error.Some? {
      HookIsSaid(m, r.ids, now);
    }
  }

  /** A request whose parts cannot be read is answered as an invalid header. */
  lemma UnreadablePartIsAnswered(r: ReceiverState, c: Context, missing: Refusal, now: Text)
    requires missing.SoapPartNotFound? || missing.PayloadPartNotFound?
    ensures var after := AfterReceive(r, c, Err(missing), now);
            && after.state == Rejected && after.receipt.Some?
            && HasError(MessagingOf(after.receipt.value.envelope), "EBMS:0009")
  {
    var m := NO_FIELDS.(error := Some(missing));
    SignalEnvelopeSays(m, r.local.credentials, r.ids, now);
    UnreadablePartCode(missing);
    CarriedError(m, r.ids, now, "EBMS:0009");
  }

  lemma UnreadablePartCode(r: Refusal)
    requires r.SoapPartNotFound? || r.PayloadPartNotFound?
    ensures Carries(r, "EBMS:0009")
  {
  }

  /** receive replaces the remote party only by the verified signer of the message, named by its eb:From;
      any other message leaves the party alone. */
  lemma RemotePartyIsVerified(r: ReceiverState, c: Context, w: Wire, now: Text)
    requires Parse(c, w).Returned?
    ensures var m := Parse(c, w).message;
            var after := AfterReceive(r, c, Ok(w), now);
            if m.signer.None? then after.remote == r.remote
            else
              && w.soap.Xml? && m.envelope.Some?
              && SignatureStage(c.policy, w.soap.root, m.envelope.value, m.signer)
              && RequiredUserMessage(m.envelope.value).Ok?
              && after.remote == Some(ExternalParty(
                   IdentityOf(Child(Child(RequiredUserMessage(m.envelope.value).value, PartyInfo), From)),
                   m.signer.value))
  {
    SignerIsStaged(c, w);
    PartyIsStored(r, c, w, now);
    ReceivedParty(r, Parse(c, w).message, now);
  }

  lemma SignerIsStaged(c: Context, w: Wire)
    requires Parse(c, w).Returned?
    ensures var m := Parse(c, w).message;
            m.signer.Some? ==>
              && w.soap.Xml? && m.envelope.Some?
              && SignatureStage(c.policy, w.soap.root, m.envelope.value, m.signer)
              && RequiredUserMessage(m.envelope.value).Ok?
  {
    ResultsAreStaged(c, w);
  }

  lemma PartyIsStored(r: ReceiverState, c: Context, w: Wire, now: Text)
    requires Parse(c, w).Returned?
    ensures AfterReceive(r, c, Ok(w), now).remote == AfterMessage(r, Parse(c, w).message, now).remote
  {
  }

  lemma ReceivedParty(r: ReceiverState, m: Message, now: Text)
    requires m.signer.Some? ==> m.envelope.Some? && RequiredUserMessage(m.envelope.value).Ok?
    ensures AfterMessage(r, m, now).remote ==
              if m.signer.None? then r.remote
              else Some(ExternalParty(IdentityOf(Child(Child(RequiredUserMessage(m.envelope.value).value, PartyInfo),
                                                       From)),
                                      m.signer.value))
  {
  }

  lemma ReadableIsIndexed(doc: Element, expected: Certificate)
    requires ReadSignal(Xml(doc), expected).Ok?
    ensures DistinctIds(IdAttributes(doc))
  {
    ReadReferencesVerify(doc, expected);
    IndexIsExact(doc);
  }

  /** Every answer, exactly: it can be read when the message is answerable and no identifier that it copies
      is one of its own or a repetition. */
  lemma AnswerIsReadableExactly(m: Message, own: Credentials, ids: References, now: Text)
    requires SignalPrepared(own, ids, now) && SignalNamed(ids)
    ensures var read := ReadSignal(Xml(SignalDocument(m, own, ids, now)), own.certificate);
            && (read.Ok? <==> Answerable(m) && NoRepetition(SignalIdBag(ids) + CopiedIds(m)))
            && (read.Ok? ==> Authenticity.Answers(read.value.envelope, m))
  {
    SignalDocumentIdsAreExact(m, own, ids, now);
    if ReadSignal(Xml(SignalDocument(m, own, ids, now)), own.certificate).Ok? {
      ReadableIsIndexed(SignalDocument(m, own, ids, now), own.certificate);
    }
    if DistinctIds(IdAttributes(SignalDocument(m, own, ids, now))) {
      AnswerIsReadable(m, own, ids, now);
    }
  }

  lemma CopiedIdsClash(m: Message, own: multiset<string>)
    requires NoRepetition(own) && NoRepetition(CopiedIds(m)) && m.error.None?
    ensures NoRepetition(own + CopiedIds(m)) <==> CarryNone(SignatureReferences(m), own)
  {
    NoRepetitionInSum(own, CopiedIds(m));
    CarriedIds(SignatureReferences(m), own);
  }

  lemma AcceptedIdsAreDistinct(c: Context, w: Wire)
    requires Parse(c, w).Returned? && Parse(c, w).message.error.None?
    ensures NoRepetition(CopiedIds(Parse(c, w).message))
  {
    ResultsAreStaged(c, w);
    LoadedIdsAreDistinct(w.soap.root);
  }

  /** The receipt for a message that was accepted with its digests verified can be read by its sender, who
      finds the message's references and identifier in it, exactly when no reference carries an identifier
      of the receipt's own. */
  lemma ReceiptIsReadable(c: Context, w: Wire, own: Credentials, ids: References, now: Text)
    requires Parse(c, w).Returned? && Parse(c, w).message.error.None? && c.policy.verifyDigests
    requires SignalPrepared(own, ids, now) && DistinctSignalIds(ids)
    ensures var m := Parse(c, w).message;
            var read := ReadSignal(Xml(SignalDocument(m, own, ids, now)), own.certificate);
            && (read.Ok? <==> CarryNone(SignatureReferences(m), SignalIdBag(ids)))
            && (read.Ok? ==> Authenticity.Answers(read.value.envelope, m))
  {
    var m := Parse(c, w).message;
    AcceptedIsAnswerable(c, w);
    AcceptedIdsAreDistinct(c, w);
    CopiedIdsClash(m, SignalIdBag(ids));
    AnswerIsReadableExactly(m, own, ids, now);
  }

  /** The answer to every refused message can be read exactly when the message is answerable; when the library
      itself refused it, exactly when its identifier is not made of white space only. */
  lemma RefusalIsReadable(c: Context, unpacked: Unpacked, own: Credentials, ids: References, now: Text)
    requires ParseMessage(c, unpacked).Returned? && ParseMessage(c, unpacked).message.error.Some?
    requires SignalPrepared(own, ids, now) && DistinctSignalIds(ids)
    ensures var m := ParseMessage(c, unpacked).message;
            var read := ReadSignal(Xml(SignalDocument(m, own, ids, now)), own.certificate);
            && (read.Ok? <==> Answerable(m))
            && (read.Ok? ==> Authenticity.Answers(read.value.envelope, m))
            && (!m.error.value.Custom? ==> (read.Ok? <==> m.messageId == Plain("") || !Blank(m.messageId)))
  {
    RefusedIsReadable(ParseMessage(c, unpacked).message, own, ids, now);
  }

  lemma RefusedIsReadable(m: Message, own: Credentials, ids: References, now: Text)
    requires m.error.Some? && SignalPrepared(own, ids, now) && DistinctSignalIds(ids)
    ensures var read := ReadSignal(Xml(SignalDocument(m, own, ids, now)), own.certificate);
            && (read.Ok? <==> Answerable(m))
            && (read.Ok? ==> Authenticity.Answers(read.value.envelope, m))
            && (!m.error.value.Custom? ==> (read.Ok? <==> m.messageId == Plain("") || !Blank(m.messageId)))
  {
    SignalDocumentIdsAreDistinct(m, own, ids, now);
    AnswerIsReadable(m, own, ids, now);
    if !m.error.value.Custom? {
      RefusedIsAnswerable(m);
    }
  }

  // ---------------------------------------------------------------- an answer that cannot be read

  function Branch(t: Tag, children: seq<Element>): Element {
    Element(t, [], Plain(""), children)
  }

  const BLANK_ID := Element(MessageId, [], Plain(" "), [])
  const BLANK_INFO := Branch(MessageInfo, [BLANK_ID])
  const BLANK_USER_MESSAGE := Branch(UserMessage, [BLANK_INFO])
  const BLANK_MESSAGING := Element(Messaging, [Attribute(WsuId, "m")], Plain(""), [BLANK_USER_MESSAGE])
  const BLANK_HEADER := Branch(Header, [BLANK_MESSAGING])

  /** A document whose message identifier is one space. */
  const BLANK_ID_DOCUMENT := Branch(Envelope, [BLANK_HEADER])

  /** The message that parsing it yields. */
  const BLANK_ID_MESSAGE :=
    NO_FIELDS.(messageId := Plain(" "), messagingId := "m", error := Some(PartyToNotFound))

  lemma OnlyChildIsTagged(e: Element, child: Element, t: Tag)
    requires e.children == [child] && child.tag == t
    ensures OnlyTagged(e, t, child)
  {
    assert e.children[1..] == [];
  }

  lemma NoChildIsTagged(e: Element, child: Element, t: Tag)
    requires e.children == [child] && child.tag != t
    ensures Tagged(e.children, t) == []
  {
    assert e.children[1..] == [];
  }

  lemma BlankChildren()
    ensures OnlyTagged(BLANK_ID_DOCUMENT, Header, BLANK_HEADER)
    ensures OnlyTagged(BLANK_HEADER, Messaging, BLANK_MESSAGING)
    ensures OnlyTagged(BLANK_MESSAGING, UserMessage, BLANK_USER_MESSAGE)
    ensures OnlyTagged(BLANK_USER_MESSAGE, MessageInfo, BLANK_INFO)
    ensures OnlyTagged(BLANK_INFO, MessageId, BLANK_ID)
    ensures Tagged(BLANK_USER_MESSAGE.children, PartyInfo) == []
  {
    OnlyChildIsTagged(BLANK_ID_DOCUMENT, BLANK_HEADER, Header);
    OnlyChildIsTagged(BLANK_HEADER, BLANK_MESSAGING, Messaging);
    OnlyChildIsTagged(BLANK_MESSAGING, BLANK_USER_MESSAGE, UserMessage);
    OnlyChildIsTagged(BLANK_USER_MESSAGE, BLANK_INFO, MessageInfo);
    OnlyChildIsTagged(BLANK_INFO, BLANK_ID, MessageId);
    NoChildIsTagged(BLANK_USER_MESSAGE, BLANK_INFO, PartyInfo);
  }

  lemma PathBreaks(e: Element, tags: seq<Tag>)
    requires tags != [] && Tagged(e.children, tags[0]) == []
    ensures Path([e], tags) == []
  {
    assert ChildrenTagged([e], tags[0]) == [];
    NoPath(tags[1..]);
  }

  lemma {:induction false} NoPath(tags: seq<Tag>)
    ensures Path([], tags) == []
  {
    if tags != [] {
      NoPath(tags[1..]);
    }
  }

  lemma BlankIdIsFound()
    ensures FindText(BLANK_ID_DOCUMENT, MESSAGE_ID_PATH) == BLANK_ID.text
  {
    BlankChildren();
    TextAlongPath(BLANK_ID_DOCUMENT, BLANK_HEADER, BLANK_MESSAGING, BLANK_USER_MESSAGE, BLANK_INFO, BLANK_ID,
                  MESSAGE_ID_PATH);
  }

  lemma BlankIdIsRead()
    ensures ReadIds(BLANK_ID_DOCUMENT) == Ok((Plain(" "), "m"))
  {
    BlankIdIsFound();
    BlankChildren();
    BlockIsFound(BLANK_ID_DOCUMENT, BLANK_HEADER, BLANK_MESSAGING);
    IdsAreRead(BLANK_ID_DOCUMENT, BLANK_MESSAGING, Plain(" "), "m");
  }

  lemma IdsAreRead(doc: Element, messaging: Element, messageId: Text, messagingId: string)
    requires Find(doc, MESSAGING_PATH) == Some(messaging) && FindText(doc, MESSAGE_ID_PATH) == messageId
    requires messaging.attributes == [Attribute(WsuId, messagingId)] && messageId != Plain("") && messagingId != ""
    ensures ReadIds(doc) == Ok((messageId, messagingId))
  {
    var a := Attribute(WsuId, messagingId);
    assert messaging.attributes == [a] + [];
    CopyCons(map[], a, []);
    assert AttributeMap(messaging.attributes) == CopyInto(map[WsuId := messagingId], []);
  }

  lemma NoPartyIsFound(doc: Element, header: Element, messaging: Element, message: Element, tags: seq<Tag>)
    requires tags == [Header, Messaging, UserMessage, PartyInfo, To]
    requires OnlyTagged(doc, Header, header) && OnlyTagged(header, Messaging, messaging)
    requires OnlyTagged(messaging, UserMessage, message) && Tagged(message.children, PartyInfo) == []
    ensures Find(doc, tags) == None
  {
    PathStep(doc, tags, header);
    PathStep(header, tags[1..], messaging);
    PathStep(messaging, tags[2..], message);
    PathBreaks(message, tags[3..]);
    assert tags[1..][1..] == tags[2..] && tags[2..][1..] == tags[3..];
  }

  lemma NoAddresseeIsFound()
    ensures AddressedTo(BLANK_ID_DOCUMENT) == Err(PartyToNotFound)
  {
    BlankChildren();
    NoPartyIsFound(BLANK_ID_DOCUMENT, BLANK_HEADER, BLANK_MESSAGING, BLANK_USER_MESSAGE, PARTY_TO_PATH);
  }

  lemma UnaddressedIsRefused(c: Context, doc: Element, attachments: Attachments, messageId: Text, messagingId: string)
    requires ReadIds(doc) == Ok((messageId, messagingId)) && AddressedTo(doc) == Err(PartyToNotFound)
    ensures Parse(c, Wire(Xml(doc), attachments))
         == Returned(NO_FIELDS.(messageId := messageId, messagingId := messagingId, error := Some(PartyToNotFound)), [])
  {
  }

  lemma BlankIsUnreadable(m: Message, own: Credentials, ids: References, now: Text)
    requires SignalPrepared(own, ids, now) && DistinctSignalIds(ids)
    requires m.messageId == Plain(" ") && SignatureReferences(m) == []
    ensures ReadSignal(Xml(SignalDocument(m, own, ids, now)), own.certificate).Err?
  {
    SignalDocumentIdsAreDistinct(m, own, ids, now);
    BlankIsNotAnswerable(m);
    AnswerIsReadable(m, own, ids, now);
  }

  lemma BlankIsNotAnswerable(m: Message)
    requires m.messageId == Plain(" ")
    ensures !Answerable(m)
  {
    assert Blank(m.messageId) && m.messageId != Plain("");
  }

  /** Receiving that document is answered with an error signal, as it should be; but no sender can read
      the answer. */
  lemma BlankIdIsAnsweredUnreadably(c: Context, attachments: Attachments, own: Credentials, ids: References, now: Text)
    requires SignalPrepared(own, ids, now) && DistinctSignalIds(ids)
    ensures Parse(c, Wire(Xml(BLANK_ID_DOCUMENT), attachments)) == Returned(BLANK_ID_MESSAGE, [])
    ensures ReadSignal(Xml(SignalDocument(BLANK_ID_MESSAGE, own, ids, now)), own.certificate).Err?
  {
    BlankIdIsRead();
    NoAddresseeIsFound();
    UnaddressedIsRefused(c, BLANK_ID_DOCUMENT, attachments, Plain(" "), "m");
    BlankIsUnreadable(BLANK_ID_MESSAGE, own, ids, now);
  }
}
