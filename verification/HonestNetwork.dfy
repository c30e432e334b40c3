/** The agreement theorems are about something: from every reachable world, an honest exchange can run to
    ACKNOWLEDGED over the network. */
module HonestNetwork {
  import opened Terms
  import opened XmlMapping
  import opened Schemas
  import opened Dsig
  import opened Errors
  import opened Messages
  import opened Peppol
  import opened Receipts
  import opened Builder
  import opened Exchanges
  import opened Envelopes
  import opened Agreement
  import opened Readable
  import opened HonestParse
  import opened Identifiers
  import opened HonestRuns
  import opened Deliveries
  import opened Network

  // ---------------------------------------------------------------- deliverable documents

  lemma BuiltReferencesAreDigestOnly(i: BuildInput)
    requires Buildable(i) && i.ids.attachments != []
    ensures forall r | r in BuiltReferencesOf(i) :: DigestOnly(r)
    ensures forall r | r in NormAll(REFERENCE, BuiltReferencesOf(i)) :: DigestOnly(r)
  {
    BuiltReferenceIsDigestOnly("#" + i.ids.messagingId, EXCLUSIVE_C14N, Xml(UserMessagingElement(i)));
    BuiltReferenceIsDigestOnly("#" + i.ids.bodyId, EXCLUSIVE_C14N, Xml(Dump(BODY, Body, BodyModel(i.ids))));
    BuiltReferenceIsDigestOnly("cid:" + AttachmentIdOf(i), ATTACHMENT_CONTENT_SIGNATURE, Gzip(Delivered(i)));
    NormEach(REFERENCE, BuiltReferencesOf(i));
    AllThree(BuiltReferencesOf(i));
    AllThree(NormAll(REFERENCE, BuiltReferencesOf(i)));
  }

  lemma AllThree(references: seq<Model>)
    requires |references| == 3 && DigestOnly(references[0]) && DigestOnly(references[1]) && DigestOnly(references[2])
    ensures forall r | r in references :: DigestOnly(r)
  {
  }

  /** The document of an issued build can be delivered. */
  lemma UserDocumentIsDeliverable(issued: seq<Issue>, honest: set<Key>, i: BuildInput)
    requires Buildable(i) && PlainHeader(i) && IssuedMessage(i) in issued
    ensures HeaderCovered(UserDocument(i)) && Deliverable(issued, honest, UserDocument(i))
  {
    var references := BuiltReferencesOf(i);
    BuiltReferencesAreDigestOnly(i);
    UserSecuritySignsOnce(i, references);
    UserMessagingSignsNothing(i, Signed(i.local.credentials.key, references));
    EnvelopeSigns(UserSecurityModel(i, references), UserMessagingModel(i), i.ids,
                  Signed(i.local.credentials.key, references));
    BuiltDocumentHasOneMessaging(UserSecurityModel(i, references), UserMessagingModel(i), i.ids);
    UserDocumentIs(i);
    IssuedReferencesAreBuilt(IssuedMessage(i));
    OneMessagingIsCovered(UserDocument(i));
    IssuedDocumentIsDeliverable(issued, honest, UserDocument(i), IssuedMessage(i));
  }

  /** The document of an issued receipt can be delivered. */
  lemma ReceiptDocumentIsDeliverable(issued: seq<Issue>, honest: set<Key>, i: Issue)
    requires i in issued && i.IssuedSignal? && Genuine(i)
    requires Answered(i).error.None? && Answered(i).messageId.Plain? && i.now.Plain?
    requires forall r | r in SignatureReferences(Answered(i)) :: DigestOnly(r)
    ensures var doc := SignalDocument(Answered(i), i.receiver.local.credentials, i.receiver.ids, i.now);
            HeaderCovered(doc) && Deliverable(issued, honest, doc)
  {
    var m, own, ids := Answered(i), i.receiver.local.credentials, i.receiver.ids;
    var references := SignalReferences(m, ids, i.now);
    HeaderReferencesAreDigestOnly(ids, SignalMessagingModel(m, ids, i.now));
    SignalSecuritySignsOnce(ids, own, references);
    ReceiptMessagingSignsNothing(m, ids, i.now, Signed(own.key, references));
    EnvelopeSigns(SecurityModelOf(m, own, ids, i.now), SignalMessagingModel(m, ids, i.now), ids,
                  Signed(own.key, references));
    BuiltDocumentHasOneMessaging(SecurityModelOf(m, own, ids, i.now), SignalMessagingModel(m, ids, i.now), ids);
    OneMessagingIsCovered(SignalDocument(m, own, ids, i.now));
    IssuedReferencesAreBuilt(i);
    IssuedDocumentIsDeliverable(issued, honest, SignalDocument(m, own, ids, i.now), i);
  }

  // ---------------------------------------------------------------- the run

  lemma OneMore(honest: set<Key>, actions: seq<Action>, a: Action)
    requires DeliveredRun(honest, actions)
    requires Possible(WorldAfter(actions), honest, a) && Delivers(WorldAfter(actions), honest, a)
    ensures DeliveredRun(honest, actions + [a])
    ensures WorldAfter(actions + [a]) == Next(WorldAfter(actions), a)
  {
    assert (actions + [a])[..|actions + [a]| - 1] == actions;
  }

  /** An honest message has been built and its exchange is waiting. */
  ghost predicate Waiting(w: World, id: nat, r: ReceiverState, built: SenderState, i: BuildInput) {
    && id in w.senders && w.senders[id] == built
    && id in w.receivers && w.receivers[id] == r
    && IssuedMessage(i) in w.issued
  }

  /** Opening both exchanges and building. */
  lemma HonestBuildIsPossible(honest: set<Key>, actions: seq<Action>, id: nat, local: InternalParty,
                              remote: ExternalParty,
                              ids: References, own: InternalParty, ownIds: References,
                              e: Event) returns (more: seq<Action>)
    requires DeliveredRun(honest, actions) && id !in WorldAfter(actions).senders && id !in WorldAfter(actions).receivers
    requires e.Build? && Buildable(InputOf(NewSender(local, remote, ids, None), e))
    ensures actions <= more && DeliveredRun(honest, more)
    ensures Waiting(WorldAfter(more), id, NewReceiver(own, ownIds),
                    AfterBuild(NewSender(local, remote, ids, None), e).sender,
                    InputOf(NewSender(local, remote, ids, None), e))
    ensures WorldAfter(more).issued == WorldAfter(actions).issued
            + [IssuedMessage(InputOf(NewSender(local, remote, ids, None), e))]
  {
    var first := OpenSender(id, local, remote, ids, None);
    OneMore(honest, actions, first);
    var second := OpenReceiver(id, own, ownIds);
    OneMore(honest, actions + [first], second);
    var third := SenderStep(id, e);
    OneMore(honest, actions + [first] + [second], third);
    more := actions + [first] + [second] + [third];
  }

  /** What has been received and answered. */
  ghost predicate AnswerWaiting(w: World, id: nat, r: ReceiverState, built: SenderState, i: Issue) {
    && i.IssuedSignal? && Genuine(i) && i in w.issued
    && id in w.senders && w.senders[id] == built
    && id in w.receivers && w.receivers[id] == AfterReceive(r, i.context, i.unpacked, i.now)
  }

  /** Receiving what is waiting. */
  lemma HonestReceiptIsPossible(honest: set<Key>, actions: seq<Action>, id: nat, r: ReceiverState, built: SenderState,
                                i: BuildInput, c: Context, now: Text) returns (more: seq<Action>)
    requires DeliveredRun(honest, actions) && Waiting(WorldAfter(actions), id, r, built, i)
    requires HonestInput(i) && PlainHeader(i)
    requires c.policy.verifyDigests && MessagingCovered in c.policy.requiredCoverage
    requires ParseMessage(c, Ok(WireOf(BuiltMessage(i)))).Returned?
    ensures actions <= more && DeliveredRun(honest, more)
    ensures AnswerWaiting(WorldAfter(more), id, r, built, IssuedSignal(r, c, Ok(WireOf(BuiltMessage(i))), now))
  {
    var wire := WireOf(BuiltMessage(i));
    UserDocumentIsDeliverable(WorldAfter(actions).issued, honest, i);
    assert wire.soap == Xml(UserDocument(i));
    more := DeliverMessage(honest, actions, id, c, Ok(wire), now);
  }

  /** One more request is handed to a receiver. */
  lemma DeliverMessage(honest: set<Key>, actions: seq<Action>, id: nat, c: Context, unpacked: Unpacked, now: Text)
    returns (more: seq<Action>)
    requires DeliveredRun(honest, actions) && id in WorldAfter(actions).receivers
    requires unpacked.Ok? && unpacked.value.soap.Xml? ==>
               Deliverable(WorldAfter(actions).issued, honest, unpacked.value.soap.root)
    requires c.policy.verifyDigests && MessagingCovered in c.policy.requiredCoverage
    requires ParseMessage(c, unpacked).Returned?
    ensures actions <= more && DeliveredRun(honest, more)
    ensures WorldAfter(more).senders == WorldAfter(actions).senders
    ensures var r := WorldAfter(actions).receivers[id];
            && WorldAfter(more).receivers == WorldAfter(actions).receivers[id := AfterReceive(r, c, unpacked, now)]
            && WorldAfter(more).issued == WorldAfter(actions).issued + [IssuedSignal(r, c, unpacked, now)]
  {
    var receive := ReceiverStep(id, c, unpacked, now);
    OneMore(honest, actions, receive);
    more := actions + [receive];
  }

  /** One more signal is handed to a sender. */
  lemma DeliverSignal(honest: set<Key>, actions: seq<Action>, id: nat, doc: Element) returns (more: seq<Action>)
    requires DeliveredRun(honest, actions) && id in WorldAfter(actions).senders
    requires Deliverable(WorldAfter(actions).issued, honest, doc)
    ensures actions <= more && DeliveredRun(honest, more)
    ensures WorldAfter(more).receivers == WorldAfter(actions).receivers
    ensures WorldAfter(more).issued == WorldAfter(actions).issued
    ensures var s := WorldAfter(actions).senders[id];
            Records(s, ReceiveSignal(Xml(doc))) ==> id in WorldAfter(more).read && WorldAfter(more).read[id] == Xml(doc)
    ensures WorldAfter(more).senders
         == WorldAfter(actions).senders[id := AfterSignal(WorldAfter(actions).senders[id], Xml(doc)).sender]
  {
    var read := SenderStep(id, ReceiveSignal(Xml(doc)));
    OneMore(honest, actions, read);
    more := actions + [read];
    assert IssuedBy(WorldAfter(actions).senders[id], read.event) == [];
  }

  lemma AcknowledgedIsRecorded(s: SenderState, data: Bytes)
    requires s.state != Acknowledged && AfterSignal(s, data).sender.state == Acknowledged
    ensures Records(s, ReceiveSignal(data))
  {
  }

  /** Reading the answer. */
  lemma HonestAnswerIsPossible(honest: set<Key>, actions: seq<Action>, id: nat, r: ReceiverState, built: SenderState,
                               i: Issue)
    returns (more: seq<Action>)
    requires DeliveredRun(honest, actions) && AnswerWaiting(WorldAfter(actions), id, r, built, i) && i.receiver == r
    requires Answered(i).error.None? && Answered(i).messageId.Plain? && i.now.Plain?
    requires forall x | x in SignatureReferences(Answered(i)) :: DigestOnly(x)
    requires var doc := SignalDocument(Answered(i), r.local.credentials, r.ids, i.now);
             built.state != Acknowledged && AfterSignal(built, Xml(doc)).sender.state == Acknowledged
    ensures actions <= more && DeliveredRun(honest, more)
    ensures id in WorldAfter(more).senders && id in WorldAfter(more).read && ReadCovered(WorldAfter(more), id)
    ensures WorldAfter(more).senders[id]
         == AfterSignal(built, Xml(SignalDocument(Answered(i), r.local.credentials, r.ids, i.now))).sender
    ensures id in WorldAfter(more).receivers
    ensures WorldAfter(more).receivers[id] == AfterReceive(r, i.context, i.unpacked, i.now)
  {
    var doc := SignalDocument(Answered(i), r.local.credentials, r.ids, i.now);
    ReceiptDocumentIsDeliverable(WorldAfter(actions).issued, honest, i);
    AcknowledgedIsRecorded(built, Xml(doc));
    more := DeliverSignal(honest, actions, id, doc);
  }

  /** The conditions under which an honest exchange runs to its end over the network. */
  ghost predicate HonestSetting(local: InternalParty, remote: ExternalParty, ids: References, e: Event,
                                own: InternalParty,
                                ownIds: References, c: Context, now: Text)
  {
    && e.Build? && !e.packagingFails
    && var i := InputOf(NewSender(local, remote, ids, None), e);
    && HonestBuild(i) && PlainHeader(i) && Welcomes(c, i)
    && c.policy.verifyDigests && MessagingCovered in c.policy.requiredCoverage
    && own.credentials.certificate == remote.certificate
    && SignalPrepared(own.credentials, ownIds, now) && now.Plain? && DistinctSignalIds(ownIds)
  }

  lemma ReceivedMessage(r: ReceiverState, built: SenderState, i: BuildInput, c: Context, now: Text) returns (m: Message)
    requires HonestInput(i) && Welcomes(c, i) && HasBuilt(built, i)
    requires r.local.credentials.certificate == i.remote.certificate
    requires SignalPrepared(r.local.credentials, r.ids, now) && DistinctSignalIds(r.ids)
    ensures Completes(built, i, r, c, now, m)
    ensures ParseMessage(c, Ok(WireOf(BuiltMessage(i)))).Returned?
    ensures ParseMessage(c, Ok(WireOf(BuiltMessage(i)))).message == m
    ensures m.error.None? && m.messageId.Plain?
    ensures forall x | x in SignatureReferences(m) :: DigestOnly(x)
  {
    var envelope := HonestMessageIsAccepted(c, i);
    m := BuiltRunCompletes(built, i, r, c, now);
    BuiltReferencesAreDigestOnly(i);
    HonestReferences(i, i, envelope, AcceptedMessage(i, envelope));
  }

  /** From every reachable world, two honest parties can run an exchange over the network that ends
      ACKNOWLEDGED, by a signal that covers its header, on one side and RECEIVED, as built, on the other. */
  lemma HonestExchangeIsPossible(honest: set<Key>, actions: seq<Action>, id: nat, local: InternalParty,
                                 remote: ExternalParty,
                                 ids: References, own: InternalParty, ownIds: References, e: Event, c: Context,
                                 now: Text)
    returns (more: seq<Action>)
    requires DeliveredRun(honest, actions) && id !in WorldAfter(actions).senders && id !in WorldAfter(actions).receivers
    requires HonestSetting(local, remote, ids, e, own, ownIds, c, now)
    ensures actions <= more && DeliveredRun(honest, more)
    ensures id in WorldAfter(more).senders && WorldAfter(more).senders[id].state == Acknowledged
    ensures id in WorldAfter(more).read && ReadCovered(WorldAfter(more), id)
    ensures id in WorldAfter(more).receivers
    ensures InputOf(NewSender(local, remote, ids, None), e).ids.attachments != []
    ensures ReceivedAsBuilt(WorldAfter(more).receivers[id], InputOf(NewSender(local, remote, ids, None), e))
  {
    var i := InputOf(NewSender(local, remote, ids, None), e);
    var r := NewReceiver(own, ownIds);
    var built := AfterBuild(NewSender(local, remote, ids, None), e).sender;
    PreparedBuildIsPrepared(i);
    FreshBuild(local, remote, ids, e);
    var m := ReceivedMessage(r, built, i, c, now);
    var first := HonestBuildIsPossible(honest, actions, id, local, remote, ids, own, ownIds, e);
    var second := HonestReceiptIsPossible(honest, first, id, r, built, i, c, now);
    more := HonestAnswerIsPossible(honest, second, id, r, built, IssuedSignal(r, c, Ok(WireOf(BuiltMessage(i))), now));
  }
}
