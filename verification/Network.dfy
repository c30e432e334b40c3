/** Any number of exchanges over a network that drops, replays and alters what it carries, and the
    agreement that every run of them keeps. */
module Network {
  import opened Terms
  import opened XmlMapping
  import opened Schemas
  import opened Dsig
  import opened Errors
  import opened Messages
  import opened Peppol
  import opened Receipts
  import opened Builder
  import opened Exchanges
  import opened Envelopes
  import opened Authenticity
  import opened Agreement
  import opened Routing

  /** Every exchange there is, the octets from which each sender's recorded signal was read, and every use
      that was made of a private key. */
  datatype World = World(senders: map<nat, SenderState>, read: map<nat, Bytes>, receivers: map<nat, ReceiverState>,
                         issued: seq<Issue>)

  const EMPTY_WORLD := World(map[], map[], map[], [])

  datatype Action =
    | OpenSender(id: nat, local: InternalParty, remote: ExternalParty, ids: References,
                 required: Option<seq<Comparable>>)
    | OpenReceiver(id: nat, local: InternalParty, ids: References)
    | SenderStep(id: nat, event: Event)
    | ReceiverStep(id: nat, context: Context, unpacked: Unpacked, now: Text)

  /** What can happen next. The network can put together any document for a sender, and anything at all for
      a receiver. */
  ghost predicate Possible(w: World, honest: set<Key>, a: Action) {
    match a
    case OpenSender(id, _, _, _, _) => id !in w.senders
    case OpenReceiver(id, _, _) => id !in w.receivers
    case SenderStep(id, event) =>
      && id in w.senders
      && (event.ReceiveSignal? && event.data.Xml? ==> Deliverable(w.issued, honest, event.data.root))
    case ReceiverStep(id, _, _, _) => id in w.receivers
  }

  /** A document whose signature covers its header, if it covers a Messaging element. */
  ghost predicate CoversHeader(data: Bytes) {
    data.Xml? ==> HeaderCovered(data.root)
  }

  ghost predicate HeaderCoveredIn(unpacked: Unpacked) {
    unpacked.Ok? ==> CoversHeader(unpacked.value.soap)
  }

  /** The event records a signal. */
  predicate Records(s: SenderState, e: Event) {
    && e.ReceiveSignal?
    && var r := ReadSignal(e.data, s.remote.certificate);
       r.Ok? && r.value.originalMessageId == Some(s.messageId)
  }

  /** The signatures that a sender's step makes: a build signs before packaging can fail. */
  function IssuedBy(s: SenderState, e: Event): seq<Issue> {
    if e.Build? && Buildable(InputOf(s, e)) then [IssuedMessage(InputOf(s, e))] else []
  }

  function Next(w: World, a: Action): World {
    match a
    case OpenSender(id, local, remote, ids, required) =>
      w.(senders := w.senders[id := NewSender(local, remote, ids, required)])
    case OpenReceiver(id, local, ids) => w.(receivers := w.receivers[id := NewReceiver(local, ids)])
    case SenderStep(id, event) =>
      if id !in w.senders then w
      else
        w.(senders := w.senders[id := AfterEvent(w.senders[id], event).sender],
           read := if Records(w.senders[id], event) then w.read[id := event.data] else w.read,
           issued := w.issued + IssuedBy(w.senders[id], event))
    case ReceiverStep(id, context, unpacked, now) =>
      if id !in w.receivers || ParseMessage(context, unpacked).Raised? then w
      else
        var r := w.receivers[id];
        w.(receivers := w.receivers[id := AfterReceive(r, context, unpacked, now)],
           issued := w.issued + [IssuedSignal(r, context, unpacked, now)])
  }

  /** The world after a sequence of actions. */
  function WorldAfter(actions: seq<Action>): World {
    if actions == [] then EMPTY_WORLD
    else Next(WorldAfter(actions[..|actions| - 1]), actions[|actions| - 1])
  }

  ghost predicate Run(honest: set<Key>, actions: seq<Action>) {
    actions == []
    || (Run(honest, actions[..|actions| - 1])
        && Possible(WorldAfter(actions[..|actions| - 1]), honest, actions[|actions| - 1]))
  }

  // ---------------------------------------------------------------- the invariant

  /** The message that a sender holds is one that was built, and its signed references are that message's. */
  ghost predicate BuiltBy(issued: seq<Issue>, s: SenderState) {
    if s.message.None? then s.signed == []
    else
      exists i :: i in issued && i.IssuedMessage? && Genuine(i)
                  && s.message.value == BuiltMessage(i.input) && s.signed == SignedReferences(BuiltMessage(i.input))
  }

  function ReadBy(w: World, id: nat): Option<Bytes> {
    if id in w.read then Some(w.read[id]) else None
  }

  /** The signal that a sender holds was read from something that the network could put together. */
  ghost predicate SignalRead(issued: seq<Issue>, honest: set<Key>, s: SenderState, data: Option<Bytes>) {
    s.receipt.Some? ==>
      && data.Some? && data.value.Xml? && Deliverable(issued, honest, data.value.root)
      && ReadSignal(data.value, s.remote.certificate) == Ok(s.receipt.value)
  }

  ghost predicate SenderOk(issued: seq<Issue>, honest: set<Key>, s: SenderState, data: Option<Bytes>) {
    SenderInvariant(s) && BuiltBy(issued, s) && SignalRead(issued, honest, s, data)
  }

  ghost predicate Invariant(w: World, honest: set<Key>) {
    && (forall id | id in w.senders :: SenderOk(w.issued, honest, w.senders[id], ReadBy(w, id)))
    && (forall i | i in w.issued :: Genuine(i))
  }

  // ---------------------------------------------------------------- its preservation

  lemma MoreIssues(issued: seq<Issue>, more: seq<Issue>, honest: set<Key>, s: SenderState, data: Option<Bytes>)
    requires SenderOk(issued, honest, s, data)
    ensures SenderOk(issued + more, honest, s, data)
  {
  }

  lemma BuildStores(s: SenderState, e: Event)
    requires e.Build?
    ensures InputOf(s, e).ids.attachments != []
    ensures var after := AfterBuild(s, e);
            if after.raised.Some? then after.sender.message == s.message && after.sender.signed == s.signed
            else Buildable(InputOf(s, e)) && after.sender.message == Some(BuiltMessage(InputOf(s, e)))
                 && after.sender.signed == SignedReferences(BuiltMessage(InputOf(s, e)))
  {
  }

  lemma MoreBuilds(issued: seq<Issue>, more: seq<Issue>, s: SenderState, after: SenderState)
    requires BuiltBy(issued, s) && after.message == s.message && after.signed == s.signed
    ensures BuiltBy(issued + more, after)
  {
  }

  lemma BuildIsLogged(issued: seq<Issue>, s: SenderState, e: Event)
    requires e.Build? && BuiltBy(issued, s)
    ensures BuiltBy(issued + IssuedBy(s, e), AfterBuild(s, e).sender)
  {
    BuildStores(s, e);
    if AfterBuild(s, e).raised.Some? {
      MoreBuilds(issued, IssuedBy(s, e), s, AfterBuild(s, e).sender);
    } else {
      var i := IssuedMessage(InputOf(s, e));
      LoggedBuild(issued + IssuedBy(s, e), AfterBuild(s, e).sender, i);
    }
  }

  lemma LoggedBuild(issued: seq<Issue>, s: SenderState, i: Issue)
    requires i in issued && i.IssuedMessage? && Genuine(i)
    requires s.message == Some(BuiltMessage(i.input)) && s.signed == SignedReferences(BuiltMessage(i.input))
    ensures BuiltBy(issued, s)
  {
  }

  lemma SignalIsRecorded(s: SenderState, data: Bytes)
    ensures var after := AfterSignal(s, data).sender;
            && after.remote == s.remote && after.message == s.message && after.signed == s.signed
            && after.receipt == (if Records(s, ReceiveSignal(data))
                                 then Some(ReadSignal(data, s.remote.certificate).value)
                                 else s.receipt)
  {
  }

  lemma RecordedIsXml(data: Bytes, expected: Certificate)
    requires ReadSignal(data, expected).Ok?
    ensures data.Xml?
  {
  }

  lemma SignalIsRead(issued: seq<Issue>, honest: set<Key>, s: SenderState, data: Option<Bytes>, e: Event)
    requires SignalRead(issued, honest, s, data) && e.ReceiveSignal?
    requires e.data.Xml? ==> Deliverable(issued, honest, e.data.root)
    ensures SignalRead(issued, honest, AfterSignal(s, e.data).sender, if Records(s, e) then Some(e.data) else data)
  {
    SignalIsRecorded(s, e.data);
    if Records(s, e) {
      RecordedIsXml(e.data, s.remote.certificate);
    }
  }

  lemma SameSignal(issued: seq<Issue>, more: seq<Issue>, honest: set<Key>, s: SenderState, after: SenderState,
                   data: Option<Bytes>)
    requires SenderOk(issued, honest, s, data) && SenderInvariant(after) && BuiltBy(issued + more, after)
    requires after.receipt == s.receipt && after.remote == s.remote
    ensures SenderOk(issued + more, honest, after, data)
  {
    MoreIssues(issued, more, honest, s, data);
  }

  lemma QuietStepKeeps(issued: seq<Issue>, honest: set<Key>, s: SenderState, data: Option<Bytes>, e: Event)
    requires SenderOk(issued, honest, s, data) && !e.ReceiveSignal?
    ensures SenderOk(issued + IssuedBy(s, e), honest, AfterEvent(s, e).sender, data)
  {
    EventKeepsInvariant(s, e);
    if e.Build? {
      BuildIsLogged(issued, s, e);
      BuildKeepsTheSignal(s, e);
    } else {
      assert issued + IssuedBy(s, e) == issued;
    }
    SameSignal(issued, IssuedBy(s, e), honest, s, AfterEvent(s, e).sender, data);
  }

  lemma BuildKeepsTheSignal(s: SenderState, e: Event)
    requires e.Build?
    ensures AfterBuild(s, e).sender.receipt == s.receipt && AfterBuild(s, e).sender.remote == s.remote
  {
  }

  lemma SenderStepKeeps(issued: seq<Issue>, honest: set<Key>, s: SenderState, data: Option<Bytes>, e: Event)
    requires SenderOk(issued, honest, s, data)
    requires e.ReceiveSignal? && e.data.Xml? ==> Deliverable(issued, honest, e.data.root)
    ensures SenderOk(issued + IssuedBy(s, e), honest, AfterEvent(s, e).sender,
                     if Records(s, e) then Some(e.data) else data)
  {
    if e.ReceiveSignal? {
      EventKeepsInvariant(s, e);
      SignalIsRead(issued, honest, s, data, e);
      SignalIsRecorded(s, e.data);
      assert issued + IssuedBy(s, e) == issued;
    } else {
      QuietStepKeeps(issued, honest, s, data, e);
    }
  }

  lemma SenderActionKeepsInvariant(w: World, honest: set<Key>, a: Action)
    requires a.SenderStep? && Invariant(w, honest) && Possible(w, honest, a)
    ensures Invariant(Next(w, a), honest)
  {
    var s := w.senders[a.id];
    var more := IssuedBy(s, a.event);
    SenderStepKeeps(w.issued, honest, s, ReadBy(w, a.id), a.event);
    IssuedByIsGenuine(s, a.event);
    InvariantGrows(w, honest, more);
    SendersGrow(w.(issued := w.issued + more), honest, a.id, AfterEvent(s, a.event).sender,
                if Records(s, a.event) then w.read[a.id := a.event.data] else w.read);
  }

  lemma IssuedByIsGenuine(s: SenderState, e: Event)
    ensures forall i | i in IssuedBy(s, e) :: Genuine(i)
  {
    if e.Build? {
      BuildStores(s, e);
    }
  }

  lemma SendersGrow(w: World, honest: set<Key>, id: nat, after: SenderState, read: map<nat, Bytes>)
    requires Invariant(w, honest) && forall other | other != id :: other in read <==> other in w.read
    requires forall other | other in w.read && other != id :: read[other] == w.read[other]
    requires SenderOk(w.issued, honest, after, if id in read then Some(read[id]) else None)
    ensures Invariant(w.(senders := w.senders[id := after], read := read), honest)
  {
    var next := w.(senders := w.senders[id := after], read := read);
    forall other | other in next.senders
      ensures SenderOk(next.issued, honest, next.senders[other], ReadBy(next, other))
    {
      assert other != id ==> ReadBy(next, other) == ReadBy(w, other);
    }
  }

  lemma ReceiverActionKeepsInvariant(w: World, honest: set<Key>, a: Action)
    requires a.ReceiverStep? && Invariant(w, honest) && Possible(w, honest, a)
    ensures Invariant(Next(w, a), honest)
  {
    if ParseMessage(a.context, a.unpacked).Returned? {
      InvariantGrows(w, honest, [IssuedSignal(w.receivers[a.id], a.context, a.unpacked, a.now)]);
    }
  }

  lemma InvariantGrows(w: World, honest: set<Key>, more: seq<Issue>)
    requires Invariant(w, honest) && forall i | i in more :: Genuine(i)
    ensures Invariant(w.(issued := w.issued + more), honest)
  {
    forall id | id in w.senders
      ensures SenderOk(w.issued + more, honest, w.senders[id], ReadBy(w, id))
    {
      MoreIssues(w.issued, more, honest, w.senders[id], ReadBy(w, id));
    }
  }

  lemma ActionKeepsInvariant(w: World, honest: set<Key>, a: Action)
    requires Invariant(w, honest) && Possible(w, honest, a)
    ensures Invariant(Next(w, a), honest)
  {
    match a
    case OpenSender(_, _, _, _, _) =>
    case OpenReceiver(_, _, _) =>
    case SenderStep(_, _) => SenderActionKeepsInvariant(w, honest, a);
    case ReceiverStep(_, _, _, _) => ReceiverActionKeepsInvariant(w, honest, a);
  }

  lemma {:induction false} EveryRunKeepsInvariant(honest: set<Key>, actions: seq<Action>)
    requires Run(honest, actions)
    ensures Invariant(WorldAfter(actions), honest)
  {
    if actions != [] {
      EveryRunKeepsInvariant(honest, actions[..|actions| - 1]);
      ActionKeepsInvariant(WorldAfter(actions[..|actions| - 1]), honest, actions[|actions| - 1]);
    }
  }

  // ---------------------------------------------------------------- agreement

  /** A holder of this key answered this message. */
  ghost predicate AnsweredUnder(w: World, key: Key, i: Issue) {
    i in w.issued && i.IssuedSignal? && Genuine(i) && SignerOf(i) == key
  }

  /** Every receiver that holds the key verifies digests. */
  ghost predicate VerifiesDigests(w: World, key: Key) {
    forall i | AnsweredUnder(w, key, i) :: i.context.policy.verifyDigests
  }

  /** The message is the one the exchange is about, accepted, with signed references that lie within the
      sent ones and include the required ones. */
  ghost predicate AcceptedFor(m: Message, s: SenderState) {
    && m.error.None?
    && Trim(m.messageId) == s.messageId
    && SetOf(SignedReferences(m)) <= SetOf(s.signed)
    && SetOf(s.required.GetOr(s.signed)) <= SetOf(SignedReferences(m))
  }

  /** The message is the one the exchange is about, refused for the reason whose code the signal carries. */
  ghost predicate RefusedFor(m: Message, s: SenderState) {
    && m.error.Some?
    && Trim(m.messageId) == s.messageId
    && s.receipt.Some?
    && |ErrorsOf(s.receipt.value)| == 1
    && AttributeOf(ErrorsOf(s.receipt.value)[0], ErrorCode).GetOr("") == ErrorCodeOf(m.error.value)
  }

  /** What a signal tells its reader about the message it answers. */
  ghost predicate IsAnswer(signal: Signal, m: Message) {
    signal == Signal(signal.envelope, OriginalMessageId(signal.envelope)) && Authenticity.Answers(signal.envelope, m)
  }

  /** The recorded signal was signed for one answer under the expected key; its document's header holds the
      block of that answer exactly when the signature covers the header. */
  ghost predicate SignedFor(w: World, id: nat, i: Issue)
    requires id in w.senders
  {
    && AnsweredUnder(w, w.senders[id].remote.certificate.key, i)
    && id in w.read && w.read[id].Xml?
    && (HeaderCovered(w.read[id].root) <==> MessagingIn(w.read[id].root) == IssuedBlockElement(i))
    && (HeaderCovered(w.read[id].root) ==>
          w.senders[id].receipt.Some? && IsAnswer(w.senders[id].receipt.value, Answered(i)))
  }

  lemma ReadSignalIsAnswer(issued: seq<Issue>, honest: set<Key>, doc: Element, expected: Certificate) returns (i: Issue)
    requires Deliverable(issued, honest, doc) && expected.key in honest && ReadSignal(Xml(doc), expected).Ok?
    ensures i in issued && i.IssuedSignal? && Genuine(i) && SignerOf(i) == expected.key
    ensures HeaderCovered(doc) <==> MessagingIn(doc) == IssuedBlockElement(i)
    ensures HeaderCovered(doc) ==> IsAnswer(ReadSignal(Xml(doc), expected).value, Answered(i))
  {
    ReadSignalFacts(doc, expected);
    i := ReadSignalIsExact(issued, honest, doc, expected);
    if HeaderCovered(doc) {
      GenuineSignalAnswers(ReadSignal(Xml(doc), expected).value.envelope, Answered(i), i.receiver.ids, i.now);
    }
  }

  /** In every run, whatever the network does, the signal that an exchange has recorded under an honest
      party's certificate was signed for an answer of that party, and is that answer exactly when its
      signature covers its header. */
  lemma RecordedSignalIsExact(honest: set<Key>, actions: seq<Action>, id: nat) returns (i: Issue)
    requires Run(honest, actions) && id in WorldAfter(actions).senders
    requires WorldAfter(actions).senders[id].receipt.Some?
    requires WorldAfter(actions).senders[id].remote.certificate.key in honest
    ensures SignedFor(WorldAfter(actions), id, i)
  {
    EveryRunKeepsInvariant(honest, actions);
    var w := WorldAfter(actions);
    assert SenderOk(w.issued, honest, w.senders[id], ReadBy(w, id));
    i := ReadSignalIsAnswer(w.issued, honest, w.read[id].root, w.senders[id].remote.certificate);
  }

  lemma StateIsAnswered(s: SenderState, m: Message)
    requires SenderInvariant(s) && s.receipt.Some? && IsAnswer(s.receipt.value, m)
    ensures s.state == Acknowledged ==> AcceptedFor(m, s)
    ensures s.state == Rejected ==> RefusedFor(m, s)
  {
  }

  lemma DecidedHasSignal(s: SenderState)
    requires SenderInvariant(s) && (s.state == Acknowledged || s.state == Rejected)
    ensures s.receipt.Some?
  {
  }

  /** The signal that the exchange has recorded covers its own header. */
  ghost predicate ReadCovered(w: World, id: nat) {
    id in w.read ==> CoversHeader(w.read[id])
  }

  /** In every run, an exchange whose expected signer's key is honest and whose recorded signal covers its
      header is acknowledged only if a holder of that key accepted its message, and rejected only if a
      holder of that key refused it. */
  lemma OutcomeIsAnswered(honest: set<Key>, actions: seq<Action>, id: nat) returns (i: Issue)
    requires Run(honest, actions) && id in WorldAfter(actions).senders && ReadCovered(WorldAfter(actions), id)
    requires var s := WorldAfter(actions).senders[id];
             (s.state == Acknowledged || s.state == Rejected) && s.remote.certificate.key in honest
    ensures var w := WorldAfter(actions);
            var s := w.senders[id];
            && AnsweredUnder(w, s.remote.certificate.key, i)
            && (s.state == Acknowledged ==> AcceptedFor(Answered(i), s))
            && (s.state == Rejected ==> RefusedFor(Answered(i), s))
  {
    EveryRunKeepsInvariant(honest, actions);
    DecidedHasSignal(WorldAfter(actions).senders[id]);
    i := RecordedSignalIsExact(honest, actions, id);
    StateIsAnswered(WorldAfter(actions).senders[id], Answered(i));
  }

  /** The answered message was accepted under a verified signer with exactly the built references, and holds
      what each was built over; its header is the built one exactly when its signature covers it, and then
      its identifier and its payload are the built ones. */
  ghost predicate AcceptedBuild(i: Issue, input: BuildInput)
    requires i.IssuedSignal? && Genuine(i) && Buildable(input) && input.ids.attachments != []
  {
    && Answered(i).error.None?
    && i.unpacked.Ok? && SignerVerified(i.context, i.unpacked.value, Answered(i))
    && SetOf(SignedReferences(Answered(i))) == SetOf(SignedReferences(BuiltMessage(input)))
    && HoldsAll(i.context, i.unpacked.value, Answered(i), input)
    && RoutesWhenFirst(i.unpacked.value, Answered(i), input)
  }

  /** Under a covered header the routing fields are the built ones, too, when the signed attachment is the
      first. */
  ghost predicate RoutesWhenFirst(w: Wire, m: Message, input: BuildInput)
    requires input.ids.attachments != []
  {
    w.soap.Xml? && HeaderCovered(w.soap.root) && w.attachments.first == Some(AttachmentIdOf(input)) ==>
      RoutesAsBuilt(m, input.arguments)
  }

  lemma AcceptedAgrees(i: Issue, input: BuildInput, signed: seq<Comparable>)
    requires i.IssuedSignal? && Genuine(i) && Answered(i).error.None? && i.context.policy.verifyDigests
    requires Buildable(input) && input.ids.attachments != []
    requires signed == SignedReferences(BuiltMessage(input)) && SetOf(SignedReferences(Answered(i))) == SetOf(signed)
    ensures AcceptedBuild(i, input)
  {
    AcknowledgedContentIsExact(i.context, i.unpacked.value, input);
    AcceptedRoutes(i.context, i.unpacked.value, input);
  }

  lemma AcceptedRoutes(c: Context, w: Wire, input: BuildInput)
    requires Parse(c, w).Returned? && Parse(c, w).message.error.None?
    requires Buildable(input) && input.ids.attachments != []
    requires w.soap.Xml? && HeaderCovered(w.soap.root) ==> Agrees(Parse(c, w).message, input)
    ensures RoutesWhenFirst(w, Parse(c, w).message, input)
  {
    if w.soap.Xml? && HeaderCovered(w.soap.root) && w.attachments.first == Some(AttachmentIdOf(input)) {
      AgreedRoutes(c, w, input);
    }
  }

  /** The answered message was accepted; it holds what it acknowledges of what the exchange has built, and
      acknowledges nothing when nothing was built. */
  ghost predicate AcceptedHolds(i: Issue, s: SenderState, input: Option<BuildInput>)
    requires i.IssuedSignal? && Genuine(i)
  {
    && AcceptedFor(Answered(i), s)
    && i.unpacked.Ok?
    && (SignedReferences(Answered(i)) != [] ==> SignerVerified(i.context, i.unpacked.value, Answered(i)))
    && match input
       case None => s.message.None? && SignedReferences(Answered(i)) == []
       case Some(built) =>
         && Buildable(built) && built.ids.attachments != [] && s.message == Some(BuiltMessage(built))
         && HoldsAcknowledged(i.context, i.unpacked.value, Answered(i), built)
  }

  lemma StoredBuild(issued: seq<Issue>, s: SenderState) returns (i: Issue)
    requires BuiltBy(issued, s) && s.message.Some?
    ensures i in issued && i.IssuedMessage? && Genuine(i)
    ensures s.message.value == BuiltMessage(i.input) && s.signed == SignedReferences(BuiltMessage(i.input))
  {
    i :| i in issued && i.IssuedMessage? && Genuine(i)
         && s.message.value == BuiltMessage(i.input) && s.signed == SignedReferences(BuiltMessage(i.input));
  }

  lemma NothingIsSigned(xs: seq<Comparable>)
    requires SetOf(xs) <= SetOf([])
    ensures xs == []
  {
    if xs != [] {
      FirstIsIn(xs);
    }
  }

  lemma FirstIsIn(xs: seq<Comparable>)
    requires xs != []
    ensures xs[0] in SetOf(xs)
  {
  }

  lemma AcceptedIsHeld(issued: seq<Issue>, s: SenderState, i: Issue) returns (input: Option<BuildInput>)
    requires Genuine(i) && i.IssuedSignal? && BuiltBy(issued, s) && AcceptedFor(Answered(i), s)
    requires i.context.policy.verifyDigests
    ensures AcceptedHolds(i, s, input)
  {
    if s.message.None? {
      input := None;
      NothingIsSigned(SignedReferences(Answered(i)));
    } else {
      var j := StoredBuild(issued, s);
      input := Some(j.input);
      AcknowledgedContentIsHeld(i.context, i.unpacked.value, j.input);
    }
  }

  /** Agreement, reference by reference, whatever the exchange requires and whether or not it has built: in
      every run, when an exchange is acknowledged by an honest signer, in a signal that covers its header and
      from receivers that verify digests, every built reference that is acknowledged stands for an element or
      attachment that the accepted message holds as it was built. */
  lemma AcknowledgedReferencesAreHeld(honest: set<Key>, actions: seq<Action>, id: nat)
    returns (i: Issue, input: Option<BuildInput>)
    requires Run(honest, actions) && id in WorldAfter(actions).senders && ReadCovered(WorldAfter(actions), id)
    requires WorldAfter(actions).senders[id].state == Acknowledged
    requires WorldAfter(actions).senders[id].remote.certificate.key in honest
    requires VerifiesDigests(WorldAfter(actions), WorldAfter(actions).senders[id].remote.certificate.key)
    ensures AnsweredUnder(WorldAfter(actions), WorldAfter(actions).senders[id].remote.certificate.key, i)
    ensures AcceptedHolds(i, WorldAfter(actions).senders[id], input)
  {
    EveryRunKeepsInvariant(honest, actions);
    i := OutcomeIsAnswered(honest, actions, id);
    input := AcceptedIsHeld(WorldAfter(actions).issued, WorldAfter(actions).senders[id], i);
  }

  /** The counterpart of an exchange that requires all its references: what it has built was accepted. */
  ghost predicate DeliveredAs(i: Issue, j: Issue, s: SenderState)
    requires i.IssuedSignal? && Genuine(i)
  {
    j.IssuedMessage? && Genuine(j) && s.message == Some(BuiltMessage(j.input)) && AcceptedBuild(i, j.input)
  }

  lemma AllIsAcknowledged(m: Message, s: SenderState)
    requires AcceptedFor(m, s) && s.required.None?
    ensures SetOf(SignedReferences(m)) == SetOf(s.signed)
  {
  }

  lemma AcceptedIsDelivered(issued: seq<Issue>, s: SenderState, i: Issue) returns (j: Issue)
    requires Genuine(i) && i.IssuedSignal? && BuiltBy(issued, s) && AcceptedFor(Answered(i), s)
    requires i.context.policy.verifyDigests && s.message.Some? && s.required.None?
    ensures j in issued && DeliveredAs(i, j, s)
  {
    j := StoredBuild(issued, s);
    AllIsAcknowledged(Answered(i), s);
    AcceptedAgrees(i, j.input, s.signed);
  }

  /** Agreement: in every run, when an exchange that requires all its references is acknowledged by an
      honest signer, in a signal that covers its header and from receivers that verify digests, the accepted
      message was signed by a verified signer and has the same set of signed references and, in each signed
      element and attachment, what was built. Its header block is the built one exactly when its own
      signature covers its header, and then so are its identifier and its payload. */
  lemma AcknowledgedMeansDelivered(honest: set<Key>, actions: seq<Action>, id: nat) returns (i: Issue, j: Issue)
    requires Run(honest, actions) && id in WorldAfter(actions).senders && ReadCovered(WorldAfter(actions), id)
    requires WorldAfter(actions).senders[id].state == Acknowledged
    requires WorldAfter(actions).senders[id].message.Some? && WorldAfter(actions).senders[id].required.None?
    requires WorldAfter(actions).senders[id].remote.certificate.key in honest
    requires VerifiesDigests(WorldAfter(actions), WorldAfter(actions).senders[id].remote.certificate.key)
    ensures AnsweredUnder(WorldAfter(actions), WorldAfter(actions).senders[id].remote.certificate.key, i)
    ensures j in WorldAfter(actions).issued && DeliveredAs(i, j, WorldAfter(actions).senders[id])
  {
    EveryRunKeepsInvariant(honest, actions);
    i := OutcomeIsAnswered(honest, actions, id);
    j := AcceptedIsDelivered(WorldAfter(actions).issued, WorldAfter(actions).senders[id], i);
  }

  // ---------------------------------------------------------------- agreement, seen from the receiver

  /** Receivers are handed what the network can put together, too, and verify what the default policy
      verifies. */
  ghost predicate Delivers(w: World, honest: set<Key>, a: Action) {
    a.ReceiverStep? ==>
      && a.context.policy.verifyDigests && MessagingCovered in a.context.policy.requiredCoverage
      && (a.unpacked.Ok? && a.unpacked.value.soap.Xml? ==> Deliverable(w.issued, honest, a.unpacked.value.soap.root))
  }

  ghost predicate DeliveredRun(honest: set<Key>, actions: seq<Action>) {
    actions == []
    || (DeliveredRun(honest, actions[..|actions| - 1])
        && Possible(WorldAfter(actions[..|actions| - 1]), honest, actions[|actions| - 1])
        && Delivers(WorldAfter(actions[..|actions| - 1]), honest, actions[|actions| - 1]))
  }

  /** What is known of a message `m` that was accepted, in the answer `a`, under the key that `i` was signed
      with. */
  ghost predicate SignedBuild(a: Issue, i: Issue, m: Message)
    requires m.signer.Some?
  {
    && a.IssuedSignal? && Genuine(a) && Answered(a) == m && a.unpacked.Ok? && a.unpacked.value.soap.Xml?
    && Genuine(i) && SignerOf(i) == m.signer.value.key
    && SignatureReferences(m) == NormAll(REFERENCE, IssuedReferences(i))
    && var doc := a.unpacked.value.soap.root;
       && (HeaderCovered(doc) <==> MessagingIn(doc) == IssuedBlockElement(i))
       && (HeaderCovered(doc) ==> BuiltFor(i, m) && RoutesWhenFirst(a.unpacked.value, m, i.input))
  }

  ghost predicate BuiltFor(i: Issue, m: Message) {
    && i.IssuedMessage? && Genuine(i) && Agrees(m, i.input)
    && SignedReferences(m) == SignedReferences(BuiltMessage(i.input))
  }

  /** The receiver has issued an answer to this message. */
  ghost predicate AnsweredBy(r: ReceiverState, a: Issue, m: Message) {
    a.IssuedSignal? && a.receiver.local == r.local && a.receiver.ids == r.ids && Genuine(a) && Answered(a) == m
  }

  /** The message that a receiver holds, when it was accepted under an honest party's signature, carries the
      references of one use of that party's key, and is what that party built when its signature covers its
      header. */
  ghost predicate ReceiverOk(issued: seq<Issue>, honest: set<Key>, r: ReceiverState) {
    (r.state == Received <==> r.message.Some? && r.message.value.error.None?)
    && (r.state == Received && r.message.value.signer.Some? && r.message.value.signer.value.key in honest ==>
          HasBuild(issued, r, r.message.value))
  }

  ghost predicate HasBuild(issued: seq<Issue>, r: ReceiverState, m: Message)
    requires m.signer.Some?
  {
    exists a, i :: a in issued && i in issued && AnsweredBy(r, a, m) && SignedBuild(a, i, m)
  }

  lemma AcceptedHasBuild(issued: seq<Issue>, honest: set<Key>, a: Issue, m: Message) returns (i: Issue)
    requires a.IssuedSignal? && Genuine(a) && Answered(a) == m && m.error.None? && m.signer.Some?
    requires a.context.policy.verifyDigests && MessagingCovered in a.context.policy.requiredCoverage
    requires a.unpacked.Ok? && a.unpacked.value.soap.Xml? ==> Deliverable(issued, honest, a.unpacked.value.soap.root)
    requires m.signer.value.key in honest
    ensures i in issued && SignedBuild(a, i, m)
  {
    i := AcceptedWasBuilt(issued, honest, a.context, a.unpacked.value);
    if HeaderCovered(a.unpacked.value.soap.root) {
      AcceptedRoutes(a.context, a.unpacked.value, i.input);
    }
  }

  lemma ReceiverStepKeeps(issued: seq<Issue>, honest: set<Key>, r: ReceiverState, a: Issue)
    requires a.IssuedSignal? && a.receiver == r && Genuine(a)
    requires a.context.policy.verifyDigests && MessagingCovered in a.context.policy.requiredCoverage
    requires a.unpacked.Ok? && a.unpacked.value.soap.Xml? ==> Deliverable(issued, honest, a.unpacked.value.soap.root)
    ensures ReceiverOk(issued + [a], honest, AfterReceive(r, a.context, a.unpacked, a.now))
  {
    var m := Answered(a);
    ReceivedState(r, a);
    if m.error.None? && m.signer.Some? && m.signer.value.key in honest {
      var i := AcceptedHasBuild(issued, honest, a, m);
      assert i in issued + [a] && a in issued + [a];
    }
  }

  lemma ReceivedState(r: ReceiverState, a: Issue)
    requires a.IssuedSignal? && a.receiver == r && Genuine(a)
    ensures var after := AfterReceive(r, a.context, a.unpacked, a.now);
            && after.local == r.local && after.ids == r.ids && after.message == Some(Answered(a))
            && (after.state == Received <==> Answered(a).error.None?)
  {
  }

  lemma MoreForReceivers(issued: seq<Issue>, more: seq<Issue>, honest: set<Key>, r: ReceiverState)
    requires ReceiverOk(issued, honest, r)
    ensures ReceiverOk(issued + more, honest, r)
  {
    if r.state == Received && r.message.value.signer.Some? && r.message.value.signer.value.key in honest {
      MoreBuildsForReceivers(issued, more, r, r.message.value);
    }
  }

  lemma MoreBuildsForReceivers(issued: seq<Issue>, more: seq<Issue>, r: ReceiverState, m: Message)
    requires m.signer.Some? && HasBuild(issued, r, m)
    ensures HasBuild(issued + more, r, m)
  {
    var a, i :| a in issued && i in issued && AnsweredBy(r, a, m) && SignedBuild(a, i, m);
    assert a in issued + more && i in issued + more;
  }

  ghost predicate ReceiversOk(w: World, honest: set<Key>) {
    forall id | id in w.receivers :: ReceiverOk(w.issued, honest, w.receivers[id])
  }

  lemma ReceiversGrow(w: World, honest: set<Key>, more: seq<Issue>)
    requires ReceiversOk(w, honest)
    ensures ReceiversOk(w.(issued := w.issued + more), honest)
  {
    forall id | id in w.receivers
      ensures ReceiverOk(w.issued + more, honest, w.receivers[id])
    {
      MoreForReceivers(w.issued, more, honest, w.receivers[id]);
    }
  }

  lemma DeliveryKeepsReceivers(w: World, honest: set<Key>, a: Action)
    requires ReceiversOk(w, honest) && Possible(w, honest, a) && Delivers(w, honest, a)
    ensures ReceiversOk(Next(w, a), honest)
  {
    match a
    case OpenSender(_, _, _, _, _) =>
    case OpenReceiver(_, _, _) =>
    case SenderStep(id, event) => ReceiversGrow(w, honest, IssuedBy(w.senders[id], event));
    case ReceiverStep(id, context, unpacked, now) =>
      if ParseMessage(context, unpacked).Returned? {
        AnswerKeepsReceivers(w, honest, id, IssuedSignal(w.receivers[id], context, unpacked, now));
      }
  }

  lemma AnswerKeepsReceivers(w: World, honest: set<Key>, id: nat, a: Issue)
    requires ReceiversOk(w, honest) && id in w.receivers
    requires a.IssuedSignal? && a.receiver == w.receivers[id] && Genuine(a)
    requires a.context.policy.verifyDigests && MessagingCovered in a.context.policy.requiredCoverage
    requires a.unpacked.Ok? && a.unpacked.value.soap.Xml? ==> Deliverable(w.issued, honest, a.unpacked.value.soap.root)
    ensures ReceiversOk(w.(receivers := w.receivers[id := AfterReceive(w.receivers[id], a.context, a.unpacked, a.now)],
                           issued := w.issued + [a]), honest)
  {
    ReceiversGrow(w, honest, [a]);
    ReceiverStepKeeps(w.issued, honest, w.receivers[id], a);
  }

  /** Agreement, seen from the receiver: in every run, a receiving exchange in RECEIVED whose message was
      verified under an honest signer holds the signed references of one use of that signer's key, and, exactly
      when its signature covers its header, the header block of that use; then it holds the identifier, the
      header block and the payload that a holder of the key built. */
  lemma {:induction false} ReceivedMeansBuilt(honest: set<Key>, actions: seq<Action>)
    requires DeliveredRun(honest, actions)
    ensures ReceiversOk(WorldAfter(actions), honest)
  {
    if actions != [] {
      ReceivedMeansBuilt(honest, actions[..|actions| - 1]);
      DeliveryKeepsReceivers(WorldAfter(actions[..|actions| - 1]), honest, actions[|actions| - 1]);
    }
  }

  // ---------------------------------------------------------------- when the signer is the sender

  /** A logged answer was given to something that the network could put together. */
  ghost predicate DeliveredIssue(issued: seq<Issue>, honest: set<Key>, i: Issue) {
    i.IssuedSignal? ==>
      && i.context.policy.verifyDigests && MessagingCovered in i.context.policy.requiredCoverage
      && (i.unpacked.Ok? && i.unpacked.value.soap.Xml? ==> Deliverable(issued, honest, i.unpacked.value.soap.root))
  }

  ghost predicate DeliveredLog(w: World, honest: set<Key>) {
    forall i | i in w.issued :: DeliveredIssue(w.issued, honest, i)
  }

  lemma MoreDelivered(issued: seq<Issue>, more: seq<Issue>, honest: set<Key>, i: Issue)
    requires DeliveredIssue(issued, honest, i)
    ensures DeliveredIssue(issued + more, honest, i)
  {
  }

  lemma DeliveryIsLogged(w: World, honest: set<Key>, a: Action)
    requires DeliveredLog(w, honest) && Possible(w, honest, a) && Delivers(w, honest, a)
    ensures DeliveredLog(Next(w, a), honest)
  {
    var more := Next(w, a).issued[|w.issued|..];
    assert Next(w, a).issued == w.issued + more;
    forall i | i in w.issued + more
      ensures DeliveredIssue(w.issued + more, honest, i)
    {
      assert i in w.issued || i in more;
      MoreDelivered(w.issued, more, honest, i);
    }
  }

  lemma {:induction false} EveryDeliveryIsLogged(honest: set<Key>, actions: seq<Action>)
    requires DeliveredRun(honest, actions)
    ensures Run(honest, actions) && DeliveredLog(WorldAfter(actions), honest)
  {
    if actions != [] {
      EveryDeliveryIsLogged(honest, actions[..|actions| - 1]);
      DeliveryIsLogged(WorldAfter(actions[..|actions| - 1]), honest, actions[|actions| - 1]);
    }
  }

  /** No message identifier is used under two keys. */
  ghost predicate OwnIdentifiers(issued: seq<Issue>) {
    forall a, b | a in issued && b in issued && a.IssuedMessage? && b.IssuedMessage? ::
      a.input.ids.messageId == b.input.ids.messageId ==> SignerOf(a) == SignerOf(b)
  }

  lemma SignerHasBuilt(issued: seq<Issue>, honest: set<Key>, i: Issue, j: Issue)
    requires DeliveredIssue(issued, honest, i) && i.IssuedSignal? && Genuine(i) && HeaderCoveredIn(i.unpacked)
    requires j in issued && j.IssuedMessage? && Genuine(j) && AcceptedBuild(i, j.input)
    requires Answered(i).signer.value.key in honest && OwnIdentifiers(issued)
    ensures Answered(i).signer.value.key == SignerOf(j)
  {
    var k := AcceptedWasBuilt(issued, honest, i.context, i.unpacked.value);
    assert Plain(k.input.ids.messageId) == Plain(j.input.ids.messageId);
  }

  /** In every run in which no message identifier is used under two keys, the signer that the accepting
      receiver verified, when honest, is the sender, if its signature covers the accepted header. */
  lemma SignerIsTheSender(honest: set<Key>, actions: seq<Action>, id: nat) returns (i: Issue, j: Issue)
    requires DeliveredRun(honest, actions) && OwnIdentifiers(WorldAfter(actions).issued)
    requires id in WorldAfter(actions).senders && WorldAfter(actions).senders[id].state == Acknowledged
    requires WorldAfter(actions).senders[id].message.Some? && WorldAfter(actions).senders[id].required.None?
    requires WorldAfter(actions).senders[id].remote.certificate.key in honest && ReadCovered(WorldAfter(actions), id)
    ensures AnsweredUnder(WorldAfter(actions), WorldAfter(actions).senders[id].remote.certificate.key, i)
    ensures j in WorldAfter(actions).issued && DeliveredAs(i, j, WorldAfter(actions).senders[id])
    ensures Answered(i).signer.Some?
    ensures Answered(i).signer.value.key in honest && HeaderCoveredIn(i.unpacked) ==>
              Answered(i).signer.value.key == SignerOf(j)
  {
    EveryDeliveryIsLogged(honest, actions);
    i, j := AcknowledgedMeansDelivered(honest, actions, id);
    if Answered(i).signer.value.key in honest && HeaderCoveredIn(i.unpacked) {
      SignerHasBuilt(WorldAfter(actions).issued, honest, i, j);
    }
  }
}
