/** The two sides of an exchange (as4/core/exchange.py). */
module Exchanges {
  import opened Terms
  import opened XmlMapping
  import opened Dsig
  import opened Errors
  import opened Messages
  import opened Peppol
  import opened Receipts
  import opened Builder
  import DocumentIdentifier

  datatype ExchangeState = Created | Built | Sent | Received | Acknowledged | Rejected | Unacknowledged

  // ---------------------------------------------------------------- the sending side

  /** What a sending exchange stores. The state `Unacknowledged` is the library's FAILED. */
  datatype SenderState = SenderState(
    local: InternalParty,
    remote: ExternalParty,
    ids: References,
    messageId: Text,
    messagingId: string,
    state: ExchangeState,
    signed: seq<Comparable>,
    required: Option<seq<Comparable>>,
    message: Option<Message>,
    receipt: Option<Signal>)

  /** `entry` is the fresh attachment entry, and `packagingFails` says that signing or packaging
      raises after the attachment map has been filled. */
  datatype Event =
    | Build(payload: Bytes, arguments: BuilderArgs, session: SessionKey, now: Text, entry: (string, string),
            packagingFails: bool)
    | MarkSent
    | ReceiveSignal(data: Bytes)
    | Restore(local: InternalParty)

  datatype Raised = BuildError | SignalError(fault: SignalFault) | MismatchedLocalParty

  /** The state after an event, and the exception it ended with. */
  datatype After = After(sender: SenderState, raised: Option<Raised>)

  function NewSender(local: InternalParty, remote: ExternalParty, ids: References, required: Option<seq<Comparable>>)
    : SenderState
  {
    SenderState(local, remote, ids, Plain(ids.messageId), ids.messagingId, Created, [], required, None, None)
  }

  function InputOf(s: SenderState, e: Event): BuildInput
    requires e.Build?
  {
    BuildInput(e.payload, s.local, s.remote, e.arguments, WithAttachment(s.ids, e.entry), e.session, e.now)
  }

  function AfterBuild(s: SenderState, e: Event): After
    requires e.Build?
  {
    var input := InputOf(s, e);
    if !Buildable(input) then After(s, Some(BuildError))
    else if e.packagingFails then After(s.(ids := input.ids), Some(BuildError))
    else
      var m := BuiltMessage(input);
      After(s.(ids := input.ids, message := Some(m), messageId := m.messageId, messagingId := m.messagingId,
               signed := SignedReferences(m), state := Built),
            None)
  }

  function AfterSignal(s: SenderState, data: Bytes): After {
    var r := ReadSignal(data, s.remote.certificate);
    if r.Err? then After(s, Some(SignalError(r.error)))
    else if r.value.originalMessageId != Some(s.messageId) then After(s, Some(SignalError(Unproven(ForAnotherMessage))))
    else
      var recorded := s.(receipt := Some(r.value));
      if ErrorsOf(r.value) != [] then After(recorded.(state := Rejected), None)
      else
        var problem := NonRepudiationProblem(r.value, s.signed, s.required);
        if problem.Some? then After(recorded.(state := Unacknowledged), Some(SignalError(Unproven(problem.value))))
        else After(recorded.(state := Acknowledged), None)
  }

  /** What model_dump_json keeps of a sending exchange: of the local party, the identity only. */
  datatype StoredSender = StoredSender(
    identity: PartyIdentity,
    remote: ExternalParty,
    ids: References,
    messageId: Text,
    messagingId: string,
    state: ExchangeState,
    signed: seq<Comparable>,
    required: Option<seq<Comparable>>,
    message: Option<Message>,
    receipt: Option<Signal>)

  function Store(s: SenderState): StoredSender {
    StoredSender(s.local.identity, s.remote, s.ids, s.messageId, s.messagingId, s.state, s.signed, s.required,
                 s.message, s.receipt)
  }

  /** restore: the local party that is supplied must have the stored identifier; empty message identifiers
      are defaulted again when the fields are validated. */
  function RestoredFrom(stored: StoredSender, local: InternalParty): Result<SenderState, Raised> {
    if stored.identity.partyId != local.identity.partyId then Err(MismatchedLocalParty)
    else
      Ok(SenderState(local, stored.remote, stored.ids,
                     if stored.messageId == Plain("") then Plain(stored.ids.messageId) else stored.messageId,
                     if stored.messagingId == "" then stored.ids.messagingId else stored.messagingId,
                     stored.state, stored.signed, stored.required, stored.message, stored.receipt))
  }

  /** Dumping to JSON and restoring under a local party. */
  function AfterRestore(s: SenderState, local: InternalParty): After {
    match RestoredFrom(Store(s), local)
    case Ok(restored) => After(restored, None)
    case Err(raised) => After(s, Some(raised))
  }

  function AfterEvent(s: SenderState, e: Event): After {
    match e
    case Build(_, _, _, _, _, _) => AfterBuild(s, e)
    case MarkSent => After(s.(state := Sent), None)
    case ReceiveSignal(data) => AfterSignal(s, data)
    case Restore(local) => AfterRestore(s, local)
  }

  function Run(s: SenderState, events: seq<Event>): SenderState {
    if events == [] then s else AfterEvent(Run(s, events[..|events| - 1]), events[|events| - 1]).sender
  }

  // ---------------------------------------------------------------- what every run keeps

  /** What the states that follow a signal mean. */
  ghost predicate SenderInvariant(s: SenderState) {
    && (s.state == Acknowledged ==>
          && s.receipt.Some?
          && ErrorsOf(s.receipt.value) == []
          && s.receipt.value.originalMessageId == Some(s.messageId)
          && SetOf(Receipts.Acknowledged(s.receipt.value)) <= SetOf(s.signed)
          && SetOf(s.required.GetOr(s.signed)) <= SetOf(Receipts.Acknowledged(s.receipt.value)))
    && (s.state == Rejected ==> s.receipt.Some? && ErrorsOf(s.receipt.value) != []
                                && s.receipt.value.originalMessageId == Some(s.messageId))
    && (s.state == Unacknowledged ==> s.receipt.Some? && ErrorsOf(s.receipt.value) == []
                                      && NonRepudiationProblem(s.receipt.value, s.signed, s.required).Some?)
    && (s.messageId == Plain("") ==> s.ids.messageId == "")
    && (s.messagingId == "" ==> s.ids.messagingId == "")
  }

  lemma SignalKeepsInvariant(s: SenderState, data: Bytes)
    requires SenderInvariant(s)
    ensures SenderInvariant(AfterSignal(s, data).sender)
  {
    var r := ReadSignal(data, s.remote.certificate);
    if r.Ok? {
      NonRepudiationIsInclusion(r.value, s.signed, s.required);
    }
  }

  lemma EventKeepsInvariant(s: SenderState, e: Event)
    requires SenderInvariant(s)
    ensures SenderInvariant(AfterEvent(s, e).sender)
  {
    if e.ReceiveSignal? {
      SignalKeepsInvariant(s, e.data);
    }
  }

  /** After any sequence of builds, mark-sents, signals and restores of a fresh exchange, the state is
      backed by the recorded signal. */
  lemma {:induction false} EveryRunKeepsInvariant(local: InternalParty, remote: ExternalParty, ids: References,
                                                  required: Option<seq<Comparable>>, events: seq<Event>)
    ensures SenderInvariant(Run(NewSender(local, remote, ids, required), events))
  {
    if events != [] {
      EveryRunKeepsInvariant(local, remote, ids, required, events[..|events| - 1]);
      EventKeepsInvariant(Run(NewSender(local, remote, ids, required), events[..|events| - 1]), events[|events| - 1]);
    }
  }

  /** A raise of receive_signal changes nothing, except the one that records a receipt which
      non-repudiation refuses. */
  lemma RaisedSignalChangesNothing(s: SenderState, data: Bytes)
    requires AfterSignal(s, data).raised.Some?
    ensures AfterSignal(s, data).sender == s || AfterSignal(s, data).sender.state == Unacknowledged
    ensures AfterSignal(s, data).sender == s.(state := AfterSignal(s, data).sender.state,
                                              receipt := AfterSignal(s, data).sender.receipt)
  {
  }

  /** What a receipt must be to prove delivery: it acknowledges nothing that was not sent and everything that
      is required, and an explicit requirement is not empty. */
  ghost predicate Proves(signal: Signal, s: SenderState) {
    && ReceiptOf(signal).Some?
    && SetOf(Receipts.Acknowledged(signal)) <= SetOf(s.signed)
    && (if s.required.None? then SetOf(s.signed) <= SetOf(Receipts.Acknowledged(signal))
        else s.required.value != [] && SetOf(s.required.value) <= SetOf(Receipts.Acknowledged(signal)))
  }

  /** The outcome of every signal. One that cannot be read, or is for another message, changes nothing and
      raises; an error rejects; a receipt acknowledges exactly when it proves delivery, and is otherwise
      recorded as FAILED, and then raises. */
  lemma SignalOutcome(s: SenderState, data: Bytes)
    ensures var read := ReadSignal(data, s.remote.certificate);
            var after := AfterSignal(s, data);
            if read.Err? then after.sender == s && after.raised == Some(SignalError(read.error))
            else if read.value.originalMessageId != Some(s.messageId) then
              after.sender == s && after.raised == Some(SignalError(Unproven(ForAnotherMessage)))
            else if ErrorsOf(read.value) != [] then
              after.sender == s.(receipt := Some(read.value), state := Rejected) && after.raised.None?
            else if Proves(read.value, s) then
              after.sender == s.(receipt := Some(read.value), state := Acknowledged) && after.raised.None?
            else
              && after.sender == s.(receipt := Some(read.value), state := Unacknowledged)
              && after.raised.Some? && after.raised.value.SignalError? && after.raised.value.fault.Unproven?
  {
    var read := ReadSignal(data, s.remote.certificate);
    if read.Ok? {
      NonRepudiationIsInclusion(read.value, s.signed, s.required);
    }
  }

  /** The outcome of every build. It raises, before anything is assigned, when the payload is not XML, the
      document type has no root element name, or the remote key is not RSA; it raises with one more attachment
      entry when packaging fails; otherwise the exchange holds the built message and waits to be sent. */
  lemma BuildOutcome(s: SenderState, e: Event)
    requires e.Build?
    ensures var input := InputOf(s, e);
            && input == BuildInput(e.payload, s.local, s.remote, e.arguments, input.ids, e.session, e.now)
            && input.ids == s.ids.(attachments := if s.ids.attachments == [] then [e.entry] else s.ids.attachments)
    ensures var input, after := InputOf(s, e), AfterBuild(s, e);
            if !e.payload.Xml? || DocumentIdentifier.RootName(e.arguments.documentType).None?
               || !s.remote.certificate.rsa
            then after.sender == s && after.raised == Some(BuildError)
            else if e.packagingFails then after.sender == s.(ids := input.ids) && after.raised == Some(BuildError)
            else
              && after.raised.None?
              && after.sender.state == Built && after.sender.message == Some(BuiltMessage(input))
              && after.sender.messageId == Plain(s.ids.messageId) && after.sender.messagingId == s.ids.messagingId
              && after.sender.signed == SignedReferences(BuiltMessage(input))
              && after.sender.local == s.local && after.sender.remote == s.remote && after.sender.ids == input.ids
              && after.sender.required == s.required && after.sender.receipt == s.receipt
  {
  }

  /** A new exchange is CREATED, takes its identifiers from its own, and holds nothing; mark_sent makes it SENT
      and changes nothing else. */
  lemma FreshAndSent(local: InternalParty, remote: ExternalParty, ids: References, required: Option<seq<Comparable>>,
                     s: SenderState)
    ensures var new' := NewSender(local, remote, ids, required);
            && new'.state == Created && new'.messageId == Plain(ids.messageId) && new'.messagingId == ids.messagingId
            && new'.local == local && new'.remote == remote && new'.ids == ids && new'.required == required
            && new'.signed == [] && new'.message.None? && new'.receipt.None?
    ensures AfterEvent(s, MarkSent) == After(s.(state := Sent), None)
    ensures forall e: Event | e.Build? :: AfterEvent(s, e) == AfterBuild(s, e)
    ensures forall data :: AfterEvent(s, ReceiveSignal(data)) == AfterSignal(s, data)
    ensures forall party :: AfterEvent(s, Restore(party)) == AfterRestore(s, party)
  {
  }

  /** A build that raises leaves everything but the attachment map alone. */
  lemma RaisedBuildKeepsTheExchange(s: SenderState, e: Event)
    requires e.Build? && AfterBuild(s, e).raised.Some?
    ensures AfterBuild(s, e).sender == s.(ids := s.ids.(attachments := AfterBuild(s, e).sender.ids.attachments))
  {
  }

  function WithoutRestores(events: seq<Event>): seq<Event> {
    if events == [] then []
    else
      var init, last := WithoutRestores(events[..|events| - 1]), events[|events| - 1];
      if last.Restore? then init else init + [last]
  }

  /** What is stored is restored exactly under a party with the stored identifier, with the credentials and
      the party type that it supplies; whatever credentials the exchange had before are not in the store. */
  lemma RestoreUndoesStore(s: SenderState, local: InternalParty, credentials: Credentials)
    requires SenderInvariant(s)
    ensures RestoredFrom(Store(s), local) == Ok(s.(local := local))
       <==> local.identity.partyId == s.local.identity.partyId
    ensures RestoredFrom(Store(s), local).Err? <==> local.identity.partyId != s.local.identity.partyId
    ensures Store(s.(local := s.local.(credentials := credentials))) == Store(s)
  {
  }

  /** Dumping and restoring under the party that the exchange is for, at any point and any number of times,
      changes no later outcome; nor does an attempt under another party, which is refused. */
  lemma {:induction false} RestoresAreInvisible(local: InternalParty, remote: ExternalParty, ids: References,
                                                required: Option<seq<Comparable>>, events: seq<Event>)
    requires forall e :: e in events && e.Restore? ==>
               e.local == local || e.local.identity.partyId != local.identity.partyId
    ensures Run(NewSender(local, remote, ids, required), events)
         == Run(NewSender(local, remote, ids, required), WithoutRestores(events))
    ensures Run(NewSender(local, remote, ids, required), events).local == local
  {
    if events != [] {
      var init, last := events[..|events| - 1], events[|events| - 1];
      RestoresAreInvisible(local, remote, ids, required, init);
      EveryRunKeepsInvariant(local, remote, ids, required, init);
      assert last in events;
      if last.Restore? {
        RestoreUndoesStore(Run(NewSender(local, remote, ids, required), init), last.local, local.credentials);
      } else {
        assert WithoutRestores(events)[..|WithoutRestores(events)| - 1] == WithoutRestores(init);
        OnlyRestoreChangesTheParty(Run(NewSender(local, remote, ids, required), init), last);
      }
    }
  }

  lemma OnlyRestoreChangesTheParty(s: SenderState, e: Event)
    requires !e.Restore?
    ensures AfterEvent(s, e).sender.local == s.local
  {
  }

  // ---------------------------------------------------------------- the receiving side

  datatype ReceiverState = ReceiverState(
    local: InternalParty,
    ids: References,
    remote: Option<ExternalParty>,
    messageId: Text,
    messagingId: string,
    state: ExchangeState,
    signed: seq<Comparable>,
    message: Option<Message>,
    receipt: Option<Signal>)

  function NewReceiver(local: InternalParty, ids: References): ReceiverState {
    ReceiverState(local, ids, None, Plain(""), "", Created, [], None, None)
  }

  /** get_remote_party: None when the signature was not verified or there is no user message. */
  function RemotePartyOf(m: Message): Option<ExternalParty> {
    if m.signer.None? || m.envelope.None? || RequiredUserMessage(m.envelope.value).Err? then None
    else
      var partyFrom := Child(Child(RequiredUserMessage(m.envelope.value).value, PartyInfo), From);
      Some(ExternalParty(IdentityOf(partyFrom), m.signer.value))
  }

  /** receive_message. */
  function AfterMessage(r: ReceiverState, m: Message, now: Text): ReceiverState {
    r.(message := Some(m),
       messageId := m.messageId,
       messagingId := m.messagingId,
       signed := SignedReferences(m),
       remote := if RemotePartyOf(m).Some? then RemotePartyOf(m) else r.remote,
       receipt := Some(Signal(SignalEnvelope(m, r.local.credentials, r.ids, now), None)),
       state := if m.error.Some? then Rejected else Received)
  }

  /** What MIME unpacking hands over: a SOAP part with attachments, or its refusal. */
  type Unpacked = Result<Wire, Refusal>

  /** The receiver's private key is the one that its parse context decrypts with. */
  function ParseMessage(c: Context, unpacked: Unpacked): Outcome {
    if unpacked.Err? then Returned(NO_FIELDS.(error := Some(unpacked.error)), []) else Parse(c, unpacked.value)
  }

  /** receive: a local fault escapes and leaves the exchange as it was. */
  function AfterReceive(r: ReceiverState, c: Context, unpacked: Unpacked, now: Text): ReceiverState {
    match ParseMessage(c, unpacked)
    case Raised(_, _) => r
    case Returned(m, _) => AfterMessage(r, m, now)
  }

  /** The outcome of every request: an exception that escapes leaves the exchange as it was; otherwise it holds
      the message, its identifiers and its signed references, and has RECEIVED or REJECTED it. */
  lemma ReceiveOutcome(r: ReceiverState, c: Context, unpacked: Unpacked, now: Text)
    ensures var after := AfterReceive(r, c, unpacked, now);
            match ParseMessage(c, unpacked)
            case Raised(_, _) => after == r
            case Returned(m, _) =>
              && after.message == Some(m) && after.messageId == m.messageId && after.messagingId == m.messagingId
              && after.signed == SignedReferences(m) && after.local == r.local && after.ids == r.ids
              && after.receipt.Some?
              && after.state == if m.error.None? then Received else Rejected
    ensures unpacked.Err? ==>
              ParseMessage(c, unpacked).Returned? && ParseMessage(c, unpacked).message.error == Some(unpacked.error)
    ensures unpacked.Ok? ==> ParseMessage(c, unpacked) == Parse(c, unpacked.value)
  {
  }
}
