/** Which built messages are accepted at all (as4/profiles/peppol/message.py). */
module AcceptedBuilds {
  import opened Terms
  import opened XmlMapping
  import opened Schemas
  import opened Dsig
  import opened Messages
  import DocumentIdentifier
  import opened Peppol
  import opened Receipts
  import opened Builder
  import opened Acceptance
  import opened Agreement
  import opened Readable
  import opened Errors
  import opened Exchanges
  import opened Identifiers
  import opened HonestMessages
  import opened HonestDocuments
  import opened HonestParse
  import opened Routing
  import opened HonestRuns
  import opened BuiltContent

  predicate Accepts(c: Context, w: Wire) {
    Parse(c, w).Returned? && Parse(c, w).message.error.None?
  }

  // ---------------------------------------------------------------- what an accepted build decrypts to

  lemma OpenedKeyIsOwn(security: Model, c: Context, id: string, session: SessionKey, content: Bytes)
    requires DecryptedData(c.policy, c.key, security, map[id := Sealed(session, content)]).Ok?
    ensures var data := DecryptedData(c.policy, c.key, security, map[id := Sealed(session, content)]).value;
            id in data ==> data[id] == content
  {
    var attachments := map[id := Sealed(session, content)];
    if OptionalChild(security, EncryptedKey).Some? {
      DecryptionIsExact(DataReferences(security), security, attachments, SessionKeyOf(security, c.key).value);
    }
  }

  lemma BuiltPartNames(attachments: seq<(string, string)>, id: string)
    requires forall p | p in NormAll(PART_INFO, PartInfoModels(attachments)) :: HrefOf(p) != "" ==>
               WithoutCid(HrefOf(p)) == id
    ensures forall a | a in attachments :: a.0 == id
  {
    var parts := NormAll(PART_INFO, PartInfoModels(attachments));
    NormEach(PART_INFO, PartInfoModels(attachments));
    forall a | a in attachments
      ensures a.0 == id
    {
      var k :| 0 <= k < |attachments| && attachments[k] == a;
      BuiltPartIsGzip(a.0);
      AttachmentUri(a.0);
      assert parts[k] in parts;
    }
  }

  lemma {:induction false} AllPartsName(parts: seq<Model>, id: string)
    requires forall p | p in parts :: HrefOf(p) != "" && WithoutCid(HrefOf(p)) == id
    ensures PartsNaming(parts, id) == parts
  {
    if parts != [] {
      assert forall p | p in parts[1..] :: p in parts;
      AllPartsName(parts[1..], id);
    }
  }

  lemma BuiltHrefs(attachments: seq<(string, string)>, id: string)
    requires forall a | a in attachments :: a.0 == id
    ensures forall p | p in NormAll(PART_INFO, PartInfoModels(attachments)) :: HrefOf(p) != ""
              && WithoutCid(HrefOf(p)) == id
  {
    var parts := NormAll(PART_INFO, PartInfoModels(attachments));
    NormEach(PART_INFO, PartInfoModels(attachments));
    forall p | p in parts
      ensures HrefOf(p) != "" && WithoutCid(HrefOf(p)) == id
    {
      var k :| 0 <= k < |parts| && parts[k] == p;
      assert attachments[k] in attachments;
      BuiltPartIsGzip(id);
      AttachmentUri(id);
    }
  }

  /** When the parts of a built header block are unpacked from one attachment, there is one part. */
  lemma OnePartIsUnpackedOnce(built: seq<(string, string)>, id: string, attachments: map<string, Bytes>,
                              data: map<string, Bytes>,
                              decrypted: map<string, Bytes>, root: Element, maximumSize: nat, sizeOf: Bytes -> nat)
    requires built != [] && attachments.Keys == {id} && id in decrypted
    requires id in data ==> data[id] == Gzip(Xml(root))
    requires DecompressParts(NormAll(PART_INFO, PartInfoModels(built)), attachments, data, maximumSize, sizeOf)
          == Decompressed(decrypted, None)
    ensures |built| == 1 && decrypted[id] == Xml(root)
  {
    var parts := NormAll(PART_INFO, PartInfoModels(built));
    DecompressionPerAttachment(parts, attachments, data, maximumSize, sizeOf);
    BuiltPartNames(built, id);
    BuiltHrefs(built, id);
    AllPartsName(parts, id);
    BuiltPartsAreGzip(built);
    NormEach(PART_INFO, PartInfoModels(built));
    GzipOpensOnce(parts, root, maximumSize, sizeOf);
  }

  // ---------------------------------------------------------------- the two conditions

  lemma AcceptedEnvelope(i: BuildInput, envelope: Model)
    requires Buildable(i) && i.ids.attachments != [] && Load(ENVELOPE, UserDocument(i)) == Ok(envelope)
    ensures MessagingOf(envelope) == Norm(MESSAGING, UserMessagingModel(i))
  {
    EnvelopeAliases();
    LoadDump(ENVELOPE, Envelope, UserEnvelope(i));
    EnvelopeReadsBack(UserSecurityModel(i, BuiltReferencesOf(i)), UserMessagingModel(i), i.ids);
  }

  lemma OnlyUserMessage(envelope: Model, message: Model)
    requires Children(MessagingOf(envelope), UserMessage) == [message]
    ensures RequiredUserMessage(envelope) == Ok(message)
  {
  }

  lemma AcceptedParts(i: BuildInput, envelope: Model)
    requires Buildable(i) && i.ids.attachments != [] && Load(ENVELOPE, UserDocument(i)) == Ok(envelope)
    ensures RequiredUserMessage(envelope) == Ok(Norm(USER_MESSAGE, UserMessageModel(i)))
    ensures PartInfos(RequiredUserMessage(envelope).value) == NormAll(PART_INFO, PartInfoModels(i.ids.attachments))
  {
    AcceptedEnvelope(i, envelope);
    BuiltPartsAreReceived(MessagingOf(envelope), i);
    OnlyUserMessage(envelope, Norm(USER_MESSAGE, UserMessageModel(i)));
  }

  /** The stages that an accepted message has passed. */
  ghost predicate Unpacks(c: Context, w: Wire, m: Message, data: map<string, Bytes>) {
    && w.soap.Xml? && m.envelope.Some? && Load(ENVELOPE, w.soap.root) == Ok(m.envelope.value)
    && m.attachments == w.attachments
    && DecryptedData(c.policy, c.key, SecurityOf(m.envelope.value), w.attachments.parts) == Ok(data)
    && RequiredUserMessage(m.envelope.value).Ok?
    && DecompressParts(PartInfos(RequiredUserMessage(m.envelope.value).value), w.attachments.parts, data,
                       c.policy.maximumSize, c.sizeOf)
       == Decompressed(m.decrypted, None)
  }

  lemma AcceptedIsUnpacked(c: Context, w: Wire) returns (data: map<string, Bytes>)
    requires Accepts(c, w)
    ensures Unpacks(c, w, Parse(c, w).message, data)
  {
    ResultsAreStaged(c, w);
    data := DecryptedData(c.policy, c.key, SecurityOf(Parse(c, w).message.envelope.value), w.attachments.parts).value;
  }

  lemma UnpackedContent(c: Context, security: Model, built: seq<(string, string)>, id: string, session: SessionKey,
                        root: Element,
                        attachments: map<string, Bytes>, data: map<string, Bytes>, decrypted: map<string, Bytes>)
    requires built != [] && attachments == map[id := Sealed(session, Gzip(Xml(root)))] && id in decrypted
    requires DecryptedData(c.policy, c.key, security, attachments) == Ok(data)
    requires DecompressParts(NormAll(PART_INFO, PartInfoModels(built)), attachments, data, c.policy.maximumSize,
                             c.sizeOf)
          == Decompressed(decrypted, None)
    ensures |built| == 1 && decrypted[id] == Xml(root)
  {
    OpenedKeyIsOwn(security, c, id, session, Gzip(Xml(root)));
    OnePartIsUnpackedOnce(built, id, attachments, data, decrypted, root, c.policy.maximumSize, c.sizeOf);
  }

  lemma UnpackedBuild(c: Context, i: BuildInput, w: Wire, m: Message, data: map<string, Bytes>)
    requires Buildable(i) && i.ids.attachments != []
    requires w.soap == Xml(UserDocument(i)) && w.attachments == SealedAttachments(i)
    requires Unpacks(c, w, m, data) && FirstPayload(m).Some?
    ensures |i.ids.attachments| == 1 && FirstPayload(m) == Some(Delivered(i))
  {
    AcceptedParts(i, m.envelope.value);
    UnpackedContent(c, SecurityOf(m.envelope.value), i.ids.attachments, AttachmentIdOf(i), i.session, Delivered(i).root,
                    w.attachments.parts, data, m.decrypted);
  }

  lemma AcceptedPayload(c: Context, i: BuildInput)
    requires Buildable(i) && i.ids.attachments != [] && Accepts(c, WireOf(BuiltMessage(i)))
    ensures |i.ids.attachments| == 1
    ensures FirstPayload(Parse(c, WireOf(BuiltMessage(i))).message) == Some(Delivered(i))
  {
    var w := WireOf(BuiltMessage(i));
    var data := AcceptedIsUnpacked(c, w);
    var header := AcceptedIsRoutedBy(c, w);
    UnpackedBuild(c, i, w, Parse(c, w).message, data);
  }

  /** No receiver accepts a built message whose attachment map has several entries, or whose payload is
      itself a routing header, whatever its policy, keys and acceptor. */
  lemma AcceptedBuildIsSingle(c: Context, i: BuildInput)
    requires Buildable(i) && i.ids.attachments != [] && Accepts(c, WireOf(BuiltMessage(i)))
    ensures |i.ids.attachments| == 1 && ParseXml(i.payload).value.tag != StandardBusinessDocumentHeader
  {
    AcceptedPayload(c, i);
    var header := AcceptedIsRoutedBy(c, WireOf(BuiltMessage(i)));
    if ParseXml(i.payload).value.tag == StandardBusinessDocumentHeader {
      SecondHeaderIsRefused(c, i.arguments, DocumentIdentifier.RootName(i.arguments.documentType).value, i.now,
                            ParseXml(i.payload).value);
      assert false;
    }
  }

  // ---------------------------------------------------------------- exactly when honest runs complete

  /** The input with the first entry of its attachment map, whose payload is the one that is built. */
  function FirstEntryOnly(i: BuildInput): BuildInput
    requires i.ids.attachments != []
  {
    i.(ids := i.ids.(attachments := i.ids.attachments[..1]))
  }

  /** What a caller can check before building. */
  predicate Acceptable(i: BuildInput)
    requires Buildable(i)
  {
    |i.ids.attachments| == 1 && ParseXml(i.payload).value.tag != StandardBusinessDocumentHeader
  }

  lemma OneEntryIsFirst(i: BuildInput)
    requires |i.ids.attachments| == 1
    ensures FirstEntryOnly(i) == i
  {
    assert i.ids.attachments[..1] == i.ids.attachments;
  }

  /** The exact condition: of otherwise honest input, a welcoming receiver accepts what is built exactly when
      the attachment map has one entry and the payload is not itself a routing header. */
  lemma HonestBuildIsAcceptedExactly(c: Context, i: BuildInput)
    requires i.ids.attachments != [] && PreparedBuild(FirstEntryOnly(i)) && Welcomes(c, i)
    ensures Accepts(c, WireOf(BuiltMessage(i))) <==> Acceptable(i)
  {
    if Accepts(c, WireOf(BuiltMessage(i))) {
      AcceptedBuildIsSingle(c, i);
    }
    if Acceptable(i) {
      OneEntryIsFirst(i);
      PreparedBuildIsPrepared(i);
      var envelope := HonestMessageIsAccepted(c, i);
      AcceptedBuildHasNoError(i, envelope);
    }
  }

  lemma AcceptedBuildHasNoError(i: BuildInput, envelope: Model)
    requires Buildable(i) && i.ids.attachments != []
    ensures AcceptedMessage(i, envelope).error.None?
  {
  }

  /** An exchange is rejected by the answer to a message that the library refused. */
  lemma RefusalIsRead(s: SenderState, m: Message, own: Credentials, ids: References, now: Text)
    requires m.error.Some? && !m.error.value.Custom? && Trim(m.messageId) == s.messageId && !Blank(m.messageId)
    requires s.remote.certificate == own.certificate && SignalPrepared(own, ids, now) && DistinctSignalIds(ids)
    ensures AfterSignal(s, Xml(SignalDocument(m, own, ids, now))).raised.None?
    ensures AfterSignal(s, Xml(SignalDocument(m, own, ids, now))).sender.state == Rejected
  {
    SignalDocumentIdsAreDistinct(m, own, ids, now);
    RefusedIsAnswerable(m);
    AnswerIsReadable(m, own, ids, now);
  }

  lemma PreparedIdIsRead(i: BuildInput)
    requires HonestHeader(i)
    ensures Trim(Plain(i.ids.messageId)) == Plain(i.ids.messageId) && !Blank(Plain(i.ids.messageId))
  {
  }

  /** What becomes of a run whose payload is itself a routing header: REJECTED on both sides. */
  lemma RoutingPayloadIsRejected(built: SenderState, i: BuildInput, r: ReceiverState, c: Context, now: Text)
    returns (m: Message)
    requires PreparedBuild(i) && Welcomes(c, i) && HasBuilt(built, i)
    requires ParseXml(i.payload).value.tag == StandardBusinessDocumentHeader
    requires r.local.credentials.certificate == i.remote.certificate
    requires SignalPrepared(r.local.credentials, r.ids, now) && DistinctSignalIds(r.ids)
    ensures AfterReceive(r, c, Ok(WireOf(BuiltMessage(i))), now).state == Rejected
    ensures AfterReceive(r, c, Ok(WireOf(BuiltMessage(i))), now).message == Some(m) && m.error == Some(PeppolSbdh)
    ensures AfterSignal(built, Xml(SignalDocument(m, r.local.credentials, r.ids, now))).raised.None?
    ensures AfterSignal(built, Xml(SignalDocument(m, r.local.credentials, r.ids, now))).sender.state == Rejected
  {
    PreparedBuildIsPrepared(i);
    RoutingPayloadIsRefused(c, i);
    PreparedIdIsRead(i);
    m := Parse(c, WireOf(BuiltMessage(i))).message;
    RefusedIsStored(r, c, WireOf(BuiltMessage(i)), now, m);
    BuiltIsWaiting(built, i);
    RefusalIsRead(built, m, r.local.credentials, r.ids, now);
  }

  lemma RefusedIsStored(r: ReceiverState, c: Context, w: Wire, now: Text, m: Message)
    requires Parse(c, w).Returned? && Parse(c, w).message == m && m.error.Some?
    ensures AfterReceive(r, c, Ok(w), now).state == Rejected && AfterReceive(r, c, Ok(w), now).message == Some(m)
  {
  }

  lemma BuiltIsWaiting(s: SenderState, i: BuildInput)
    requires Buildable(i) && i.ids.attachments != [] && HasBuilt(s, i)
    ensures s.messageId == Plain(i.ids.messageId) && s.remote == i.remote
  {
  }

  /** Honest runs complete exactly for acceptable input: then the receiver ends RECEIVED and the sender
      ACKNOWLEDGED; a receiver that has not received anything before does not receive any other input. */
  lemma HonestRunIsExact(local: InternalParty, remote: ExternalParty, ids: References, e: Event,
                         r: ReceiverState, c: Context, now: Text) returns (m: Option<Message>)
    requires e.Build? && !e.packagingFails && r.state != Received
    requires var i := InputOf(NewSender(local, remote, ids, None), e);
             i.ids.attachments != [] && PreparedBuild(FirstEntryOnly(i)) && Welcomes(c, i)
    requires r.local.credentials.certificate == remote.certificate
    requires SignalPrepared(r.local.credentials, r.ids, now) && DistinctSignalIds(r.ids)
    ensures var initial := NewSender(local, remote, ids, None);
            var i := InputOf(initial, e);
            && AfterBuild(initial, e).raised.None?
            && (Acceptable(i) <==> AfterReceive(r, c, Ok(WireOf(BuiltMessage(i))), now).state == Received)
            && (Acceptable(i) <==> m.Some?)
            && (m.Some? ==> Completes(AfterBuild(initial, e).sender, i, r, c, now, m.value))
  {
    var i := InputOf(NewSender(local, remote, ids, None), e);
    FreshBuild(local, remote, ids, e);
    HonestBuildIsAcceptedExactly(c, i);
    ReceivedIsAccepted(r, c, WireOf(BuiltMessage(i)), now);
    m := None;
    if Acceptable(i) {
      OneEntryIsFirst(i);
      var completed := HonestRunCompletes(local, remote, ids, e, r, c, now);
      m := Some(completed);
    }
  }

  lemma ReceivedIsAccepted(r: ReceiverState, c: Context, w: Wire, now: Text)
    requires r.state != Received
    ensures AfterReceive(r, c, Ok(w), now).state == Received <==> Accepts(c, w)
  {
  }

  // ---------------------------------------------------------------- what the receiver reads

  /** What the receiver of an honest message reads: in the header block and in the routing header of the
      attachment, every value that was built. */
  lemma HonestMessageSays(c: Context, i: BuildInput)
    requires HonestInput(i) && Welcomes(c, i)
    ensures Accepts(c, WireOf(BuiltMessage(i)))
    ensures var m := Parse(c, WireOf(BuiltMessage(i))).message;
            && m.envelope.Some? && SaysMessaging(MessagingOf(m.envelope.value), i)
            && FirstPayload(m).Some? && BusinessHeader(c, FirstPayload(m).value).Some?
            && SaysRouting(BusinessHeader(c, FirstPayload(m).value).value, i.arguments,
                           DocumentIdentifier.RootName(i.arguments.documentType).value, i.now)
  {
    var envelope := HonestMessageIsAccepted(c, i);
    AcceptedBuildHasNoError(i, envelope);
    MessagingSays(i);
    HonestHeaderIsRead(c, i);
    RoutingSays(i.arguments, DocumentIdentifier.RootName(i.arguments.documentType).value, i.now);
    AcceptedPayload(c, i);
    AcceptedEnvelopeIs(i, envelope);
  }

  lemma AcceptedEnvelopeIs(i: BuildInput, envelope: Model)
    requires Buildable(i) && i.ids.attachments != [] && HonestEnvelope(i, envelope)
    ensures AcceptedMessage(i, envelope).envelope == Some(envelope) && MessagingOf(envelope) == UserMessagingModel(i)
  {
  }
}
