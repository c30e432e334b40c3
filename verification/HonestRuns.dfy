/** Honest runs complete: what is built is received, and the answer is acknowledged
    (as4/core/exchange.py). */
module HonestRuns {
  import opened Terms
  import opened XmlMapping
  import opened Schemas
  import opened Documents
  import opened Dsig
  import opened Messages
  import opened DocumentIdentifier
  import opened Receipts
  import opened Builder
  import opened Exchanges
  import opened Agreement
  import opened Authenticity
  import opened Completeness
  import opened Readable
  import opened HonestMessages
  import opened HonestParse
  import opened Identifiers

  // ---------------------------------------------------------------- honest input

  /** Input the builder is meant for: distinct identifiers, trimmed header values, Peppol parties, an RSA
      key pair. */
  predicate PreparedBuild(i: BuildInput) {
    && Buildable(i) && HonestHeader(i) && DistinctUserIds(i.ids)
    && TidyString(RootName(i.arguments.documentType).value)
    && i.local.credentials.certificate.rsa && i.local.credentials.certificate.key == i.local.credentials.key
  }

  /** Such input, with a payload that is not itself a routing header. */
  predicate HonestBuild(i: BuildInput) {
    PreparedBuild(i) && ParseXml(i.payload).value.tag != StandardBusinessDocumentHeader
  }

  /** A reference that survives a dump and carries no identifier. */
  predicate SoundReference(r: Model) {
    PlainId !in r.attributes && Complete(REFERENCE, r) && DigestAlgorithmOf(r) != ""
  }

  lemma BuiltReferenceIsSound(uri: string, transform: string, content: Bytes)
    ensures SoundReference(ReferenceModel(uri, transform, content))
  {
    BuiltReferenceIsComplete(uri, transform, content);
    assert DigestAlgorithmOf(ReferenceModel(uri, transform, content)) == SHA256 && SHA256 != "";
  }

  lemma ThreeSoundReferences(header: seq<Model>, attachment: Model)
    requires |header| == 2 && SoundReference(header[0]) && SoundReference(header[1]) && SoundReference(attachment)
    ensures forall r | r in header + [attachment] :: SoundReference(r)
  {
  }

  lemma BuiltReferencesAreSound(i: BuildInput)
    requires Buildable(i) && i.ids.attachments != []
    ensures forall r | r in BuiltReferencesOf(i) :: SoundReference(r)
  {
    BuiltReferenceIsSound("#" + i.ids.messagingId, EXCLUSIVE_C14N, Xml(UserMessagingElement(i)));
    BuiltReferenceIsSound("#" + i.ids.bodyId, EXCLUSIVE_C14N, Xml(Dump(BODY, Body, BodyModel(i.ids))));
    BuiltReferenceIsSound("cid:" + AttachmentIdOf(i), ATTACHMENT_CONTENT_SIGNATURE, Gzip(Delivered(i)));
    ThreeSoundReferences(HeaderReferences(i.ids, UserMessagingModel(i)),
                         AttachmentReference(AttachmentIdOf(i), Gzip(Delivered(i))));
  }

  lemma PreparedBuildIsPrepared(i: BuildInput)
    requires PreparedBuild(i)
    ensures PreparedInput(i)
  {
    BuiltReferencesAreSound(i);
    UserDocumentIdsAreDistinct(i, BuiltReferencesOf(i));
    UserDocumentIs(i);
  }

  /** A sound reference stays sound when it is read back. */
  lemma ReadReferenceIsSound(r: Model)
    requires SoundReference(r)
    ensures SoundReference(Norm(REFERENCE, r))
  {
    ReferenceAliases();
    LoadDumpIsExact(REFERENCE, Reference, r);
    DigestAlgorithmSurvivesDump(r);
    LoadedReferenceIsComplete(Dump(REFERENCE, Reference, r));
    NormAttributes(REFERENCE, r, PlainId);
  }

  lemma ReadReferencesAreSound(references: seq<Model>)
    requires forall r | r in references :: SoundReference(r)
    ensures forall r | r in NormAll(REFERENCE, references) :: SoundReference(r)
    ensures AllComplete(REFERENCE, NormAll(REFERENCE, references))
  {
    var read := NormAll(REFERENCE, references);
    NormEach(REFERENCE, references);
    forall k | 0 <= k < |read|
      ensures SoundReference(read[k])
    {
      assert references[k] in references;
      ReadReferenceIsSound(references[k]);
    }
    AllCompleteIsEach(REFERENCE, read);
  }

  // ---------------------------------------------------------------- the receiving side

  /** The parsed message has the content of the built one. */
  predicate SameContent(m: Message, built: Message) {
    && m.error.None?
    && m.messageId == built.messageId && m.messagingId == built.messagingId
    && m.sender == built.sender && m.recipient == built.recipient
    && m.documentType == built.documentType && m.documentScheme == built.documentScheme && m.process == built.process
    && m.decrypted == built.decrypted
  }

  /** What the receiving exchange of an honest message stores. */
  ghost predicate ReceivedAsBuilt(after: ReceiverState, i: BuildInput)
    requires Buildable(i) && i.ids.attachments != []
  {
    var built := BuiltMessage(i);
    && after.state == Received
    && after.message.Some? && SameContent(after.message.value, built)
    && after.remote == Some(ExternalParty(i.local.identity, i.local.credentials.certificate))
  }

  lemma HonestRemoteParty(i: BuildInput, envelope: Model)
    requires HonestInput(i) && HonestEnvelope(i, envelope)
    ensures RemotePartyOf(AcceptedMessage(i, envelope))
         == Some(ExternalParty(i.local.identity, i.local.credentials.certificate))
  {
    HonestUserMessage(i, envelope);
    HonestSender(i);
    SenderIdentity(i.local.identity);
    AcceptedFields(i, envelope);
    RemotePartyIs(AcceptedMessage(i, envelope), envelope, UserMessageModel(i), i.local.identity,
                  i.local.credentials.certificate);
  }

  lemma AcceptedFields(i: BuildInput, envelope: Model)
    requires Buildable(i) && i.ids.attachments != []
    ensures AcceptedMessage(i, envelope).signer == Some(i.local.credentials.certificate)
    ensures AcceptedMessage(i, envelope).envelope == Some(envelope)
  {
  }

  lemma RemotePartyIs(m: Message, envelope: Model, message: Model, p: PartyIdentity, signer: Certificate)
    requires m.signer == Some(signer) && m.envelope == Some(envelope) && RequiredUserMessage(envelope) == Ok(message)
    requires IdentityOf(Child(Child(message, PartyInfo), From)) == p
    ensures RemotePartyOf(m) == Some(ExternalParty(p, signer))
  {
  }

  lemma SenderIdentity(p: PartyIdentity)
    ensures IdentityOf(PartyModel(p, INITIATOR)) == p
  {
  }

  /** Receiving an honest message: the parsed message is the built one, and the exchange is RECEIVED. */
  lemma HonestMessageIsReceived(r: ReceiverState, c: Context, i: BuildInput, now: Text) returns (envelope: Model)
    requires HonestInput(i) && Welcomes(c, i)
    ensures HonestEnvelope(i, envelope)
    ensures var after := AfterReceive(r, c, Ok(WireOf(BuiltMessage(i))), now);
            && ReceivedAsBuilt(after, i)
            && after.message == Some(AcceptedMessage(i, envelope))
            && after.receipt == Some(Signal(SignalEnvelope(AcceptedMessage(i, envelope), r.local.credentials, r.ids,
                                                           now), None))
  {
    envelope := HonestMessageIsAccepted(c, i);
    HonestRemoteParty(i, envelope);
    var after := AfterReceive(r, c, Ok(WireOf(BuiltMessage(i))), now);
    assert after == AfterMessage(r, AcceptedMessage(i, envelope), now);
  }

  // ---------------------------------------------------------------- the answer

  lemma HonestIsAnswerable(i: BuildInput, envelope: Model)
    requires HonestInput(i) && HonestEnvelope(i, envelope)
    ensures Answerable(AcceptedMessage(i, envelope))
    ensures SignedReferences(AcceptedMessage(i, envelope)) == SignedReferences(BuiltMessage(i))
  {
    HonestReferences(i, i, envelope, AcceptedMessage(i, envelope));
    BuiltReferencesAreSound(i);
    ReadReferencesAreSound(BuiltReferencesOf(i));
    BuiltReferences(i);
    ComparablesSurviveDump(BuiltReferencesOf(i));
  }

  /** The answer to an honest message, and the exchange that is waiting for it. */
  lemma HonestAnswerIsAcknowledged(s: SenderState, m: Message, own: Credentials, ids: References, now: Text)
    requires m.error.None? && Answerable(m) && Trim(m.messageId) == s.messageId && SignedReferences(m) == s.signed
    requires s.required.None? && s.remote.certificate == own.certificate
    requires SignalPrepared(own, ids, now) && DistinctIds(IdAttributes(SignalDocument(m, own, ids, now)))
    ensures var after := AfterSignal(s, Xml(SignalDocument(m, own, ids, now)));
            after.raised.None? && after.sender.state == Acknowledged
  {
    AnswerIsReadable(m, own, ids, now);
    var signal := ReadSignal(Xml(SignalDocument(m, own, ids, now)), own.certificate).value;
    NonRepudiationIsInclusion(signal, s.signed, s.required);
  }

  lemma HonestSignalIsDistinct(i: BuildInput, envelope: Model, own: Credentials, ids: References, now: Text)
    requires HonestInput(i) && HonestEnvelope(i, envelope) && DistinctSignalIds(ids)
    ensures DistinctIds(IdAttributes(SignalDocument(AcceptedMessage(i, envelope), own, ids, now)))
  {
    HonestReferences(i, i, envelope, AcceptedMessage(i, envelope));
    BuiltReferencesAreSound(i);
    ReadReferencesAreSound(BuiltReferencesOf(i));
    SignalDocumentIdsAreDistinct(AcceptedMessage(i, envelope), own, ids, now);
  }

  /** A fresh sending exchange that has built this input. */
  ghost predicate HasBuilt(s: SenderState, i: BuildInput)
    requires Buildable(i) && i.ids.attachments != []
  {
    && s.state == Built && s.message == Some(BuiltMessage(i)) && s.messageId == Plain(i.ids.messageId)
    && s.signed == SignedReferences(BuiltMessage(i)) && s.required.None? && s.remote == i.remote
  }

  lemma FreshBuild(local: InternalParty, remote: ExternalParty, ids: References, e: Event)
    requires e.Build? && !e.packagingFails && Buildable(InputOf(NewSender(local, remote, ids, None), e))
    ensures InputOf(NewSender(local, remote, ids, None), e).ids.attachments != []
    ensures AfterBuild(NewSender(local, remote, ids, None), e).raised.None?
    ensures HasBuilt(AfterBuild(NewSender(local, remote, ids, None), e).sender,
                     InputOf(NewSender(local, remote, ids, None), e))
  {
  }

  lemma HonestAnswerCompletes(s: SenderState, i: BuildInput, envelope: Model, own: Credentials, ids: References,
                              now: Text)
    requires HonestInput(i) && HonestEnvelope(i, envelope) && HasBuilt(s, i) && own.certificate == i.remote.certificate
    requires SignalPrepared(own, ids, now) && DistinctSignalIds(ids)
    ensures var after := AfterSignal(s, Xml(SignalDocument(AcceptedMessage(i, envelope), own, ids, now)));
            after.raised.None? && after.sender.state == Acknowledged
  {
    var m := AcceptedMessage(i, envelope);
    HonestIsAnswerable(i, envelope);
    HonestSignalIsDistinct(i, envelope, own, ids, now);
    HonestAnswerIsAcknowledged(s, m, own, ids, now);
  }

  /** The sender has built the input; the receiver has received it as built and stored its answer; and
      reading that answer acknowledges the sender. */
  ghost predicate Completes(built: SenderState, i: BuildInput, r: ReceiverState, c: Context, now: Text, m: Message)
    requires Buildable(i) && i.ids.attachments != []
  {
    var received := AfterReceive(r, c, Ok(WireOf(BuiltMessage(i))), now);
    var answered := AfterSignal(built, Xml(SignalDocument(m, r.local.credentials, r.ids, now)));
    && HasBuilt(built, i)
    && ReceivedAsBuilt(received, i)
    && received.message == Some(m)
    && received.receipt == Some(Signal(SignalEnvelope(m, r.local.credentials, r.ids, now), None))
    && answered.raised.None?
    && answered.sender.state == Acknowledged
  }

  lemma BuiltRunCompletes(built: SenderState, i: BuildInput, r: ReceiverState, c: Context, now: Text)
    returns (m: Message)
    requires HonestInput(i) && Welcomes(c, i) && HasBuilt(built, i)
    requires r.local.credentials.certificate == i.remote.certificate
    requires SignalPrepared(r.local.credentials, r.ids, now) && DistinctSignalIds(r.ids)
    ensures Completes(built, i, r, c, now, m)
  {
    var envelope := HonestMessageIsReceived(r, c, i, now);
    m := AcceptedMessage(i, envelope);
    HonestAnswerCompletes(built, i, envelope, r.local.credentials, r.ids, now);
  }

  /** Honest runs complete: for honest input and a receiver that welcomes it, building, receiving and
      reading the answer takes the receiver to RECEIVED, with the identifiers, sender, recipient, process,
      document type and payload that the builder was given, and the sender to ACKNOWLEDGED. */
  lemma HonestRunCompletes(local: InternalParty, remote: ExternalParty, ids: References, e: Event,
                           r: ReceiverState, c: Context, now: Text) returns (m: Message)
    requires e.Build? && !e.packagingFails
    requires var i := InputOf(NewSender(local, remote, ids, None), e); HonestBuild(i) && Welcomes(c, i)
    requires r.local.credentials.certificate == remote.certificate
    requires SignalPrepared(r.local.credentials, r.ids, now) && DistinctSignalIds(r.ids)
    ensures var initial := NewSender(local, remote, ids, None);
            && AfterBuild(initial, e).raised.None?
            && Completes(AfterBuild(initial, e).sender, InputOf(initial, e), r, c, now, m)
  {
    var i := InputOf(NewSender(local, remote, ids, None), e);
    PreparedBuildIsPrepared(i);
    FreshBuild(local, remote, ids, e);
    m := BuiltRunCompletes(AfterBuild(NewSender(local, remote, ids, None), e).sender, i, r, c, now);
  }
}
