/** A run in which an uncovered header acknowledges what nobody has accepted (as4/core/exchange.py). */
module SplitRuns {
  import opened Terms
  import opened Errors
  import opened Messages
  import opened Receipts
  import opened Builder
  import opened Exchanges
  import opened Agreement
  import opened Readable
  import opened HonestParse
  import opened Identifiers
  import opened HonestRuns
  import opened SplitDocuments
  import opened Network
  import opened HonestNetwork

  /** The sending exchange is acknowledged, in a signal that does not cover its header, by a receiving exchange
      that has refused. */
  ghost predicate FalselyAcknowledged(w: World, id: nat) {
    && id in w.senders && w.senders[id].state == Acknowledged
    && id in w.receivers && w.receivers[id].state == Rejected
    && !ReadCovered(w, id)
  }

  lemma FreshRemote(local: InternalParty, remote: ExternalParty, ids: References, e: Event)
    requires e.Build?
    ensures AfterBuild(NewSender(local, remote, ids, None), e).sender.remote == remote
  {
  }

  lemma TwoMore(before: seq<Issue>, a: Issue, b: Issue)
    ensures (before + [a]) + [b] == before + [a, b]
  {
  }

  /** What a receiver that cannot unpack a request ends with. */
  lemma UnpackingIsRefused(r: ReceiverState, c: Context, refusal: Refusal, now: Text)
    ensures var a := IssuedSignal(r, c, Err(refusal), now);
            && Genuine(a) && Answered(a) == NO_FIELDS.(error := Some(refusal))
            && AfterReceive(r, c, Err(refusal), now).state == Rejected
  {
  }

  /** The waiting exchange is acknowledged by the rearranged refusal. */
  lemma DeliverSplitSignal(honest: set<Key>, actions: seq<Action>, id: nat, s: SenderState, i: BuildInput, a: Issue,
                           ids': References, now': Text) returns (more: seq<Action>)
    requires DeliveredRun(honest, actions) && id in WorldAfter(actions).senders && WorldAfter(actions).senders[id] == s
    requires a in WorldAfter(actions).issued && a.IssuedSignal? && Genuine(a) && Answered(a).error.Some?
    requires Answered(a).messageId.Plain? && a.now.Plain? && now'.Plain?
    requires HonestContent(i) && HasBuilt(s, i) && s.remote.certificate == a.receiver.local.credentials.certificate
    requires SignalPrepared(a.receiver.local.credentials, a.receiver.ids, a.now)
    requires !Blank(Plain(ids'.messageId)) && !Blank(now') && ids'.messagingId != ""
    requires SignalNamed(a.receiver.ids) && NoRepetition(SignalIdBag(a.receiver.ids) + multiset{ids'.messagingId})
    ensures actions <= more && DeliveredRun(honest, more)
    ensures WorldAfter(more).receivers == WorldAfter(actions).receivers
    ensures WorldAfter(more).issued == WorldAfter(actions).issued
    ensures id in WorldAfter(more).senders && WorldAfter(more).senders[id].state == Acknowledged
    ensures !ReadCovered(WorldAfter(more), id)
  {
    var own, ids := a.receiver.local.credentials, a.receiver.ids;
    var doc := SplitSignal(Answered(a), BuiltMessage(i), own, ids, ids', a.now, now');
    SplitSignalIsDeliverable(WorldAfter(actions).issued, honest, a, i, ids', now');
    UncoveredHeaderAcknowledges(s, i, Answered(a), own, ids, a.now, ids', now');
    AcknowledgedIsRecorded(s, Xml(doc));
    more := DeliverSignal(honest, actions, id, doc);
  }

  /** The receiver refuses something else, and the exchange is acknowledged by that refusal. */
  lemma RefusalAcknowledges(honest: set<Key>, actions: seq<Action>, id: nat, r: ReceiverState, s: SenderState,
                            i: BuildInput,
                            c: Context, refusal: Refusal, now: Text, ids': References,
                            now': Text) returns (more: seq<Action>)
    requires DeliveredRun(honest, actions) && Waiting(WorldAfter(actions), id, r, s, i)
    requires c.policy.verifyDigests && MessagingCovered in c.policy.requiredCoverage
    requires HonestContent(i) && HasBuilt(s, i) && s.remote.certificate == r.local.credentials.certificate
    requires SignalPrepared(r.local.credentials, r.ids, now) && now.Plain? && now'.Plain?
    requires !Blank(now') && !Blank(Plain(ids'.messageId)) && ids'.messagingId != ""
    requires SignalNamed(r.ids) && NoRepetition(SignalIdBag(r.ids) + multiset{ids'.messagingId})
    ensures actions <= more && DeliveredRun(honest, more)
    ensures FalselyAcknowledged(WorldAfter(more), id)
    ensures WorldAfter(more).issued == WorldAfter(actions).issued + [IssuedSignal(r, c, Err(refusal), now)]
  {
    UnpackingIsRefused(r, c, refusal, now);
    var refused := DeliverMessage(honest, actions, id, c, Err(refusal), now);
    more := DeliverSplitSignal(honest, refused, id, s, i, IssuedSignal(r, c, Err(refusal), now), ids', now');
  }

  /** Without coverage of the header agreement fails: every run can be extended by an exchange whose message
      is signed, whose receiver refuses all it is handed, and which ends ACKNOWLEDGED none the less. */
  lemma UncoveredRunAcknowledges(honest: set<Key>, actions: seq<Action>, id: nat, local: InternalParty,
                                 remote: ExternalParty,
                                 ids: References, own: InternalParty, ownIds: References, e: Event, c: Context,
                                 refusal: Refusal, now: Text, ids': References, now': Text)
    returns (more: seq<Action>, a: Issue)
    requires DeliveredRun(honest, actions) && id !in WorldAfter(actions).senders && id !in WorldAfter(actions).receivers
    requires e.Build? && !e.packagingFails && HonestContent(InputOf(NewSender(local, remote, ids, None), e))
    requires c.policy.verifyDigests && MessagingCovered in c.policy.requiredCoverage
    requires remote.certificate == own.credentials.certificate && SignalPrepared(own.credentials, ownIds, now)
    requires now.Plain? && now'.Plain? && !Blank(now') && !Blank(Plain(ids'.messageId)) && ids'.messagingId != ""
    requires SignalNamed(ownIds) && NoRepetition(SignalIdBag(ownIds) + multiset{ids'.messagingId})
    ensures actions <= more && DeliveredRun(honest, more)
    ensures FalselyAcknowledged(WorldAfter(more), id)
    ensures a.IssuedSignal? && Genuine(a) && Answered(a).error.Some?
    ensures WorldAfter(more).issued
         == WorldAfter(actions).issued + [IssuedMessage(InputOf(NewSender(local, remote, ids, None), e)), a]
  {
    var i := InputOf(NewSender(local, remote, ids, None), e);
    var s, r := AfterBuild(NewSender(local, remote, ids, None), e).sender, NewReceiver(own, ownIds);
    FreshBuild(local, remote, ids, e);
    FreshRemote(local, remote, ids, e);
    a := IssuedSignal(r, c, Err(refusal), now);
    UnpackingIsRefused(r, c, refusal, now);
    var built := HonestBuildIsPossible(honest, actions, id, local, remote, ids, own, ownIds, e);
    more := RefusalAcknowledges(honest, built, id, r, s, i, c, refusal, now, ids', now');
    TwoMore(WorldAfter(actions).issued, IssuedMessage(i), a);
  }
}
