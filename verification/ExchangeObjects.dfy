/** The exchange objects and the identifiers they own (as4/core/exchange.py, as4/core/references.py). */
module ExchangeObjects {
  import opened Terms
  import opened Dsig
  import opened Errors
  import opened Messages
  import opened Peppol
  import opened Receipts
  import opened Builder
  import opened Exchanges
  import opened MessageParser
  import opened SignalReader

  /** AS4References: its attachment map is filled on first use. */
  class ExchangeIdentifiers {
    var ids: References

    constructor (ids: References)
      ensures this.ids == ids
    {
      this.ids := ids;
    }

    /** encrypted_data_attachment_mapping: the first entry of the map, which is filled when it is empty.
        `entry` is the fresh entry. */
    method EncryptedDataAttachmentMapping(entry: (string, string)) returns (first: (string, string))
      modifies this
      ensures ids == WithAttachment(old(ids), entry)
      ensures ids.attachments != [] && first == ids.attachments[0]
      ensures first == if old(ids).attachments == [] then entry else old(ids).attachments[0]
    {
      if ids.attachments == [] {
        ids := ids.(attachments := [entry]);
      }
      first := ids.attachments[0];
    }
  }

  // ---------------------------------------------------------------- sending

  class SendingExchange {
    const local: InternalParty
    const remote: ExternalParty
    const identifiers: ExchangeIdentifiers
    const required: Option<seq<Comparable>>
    var messageId: Text
    var messagingId: string
    var state: ExchangeState
    var signed: seq<Comparable>
    var message: Option<Message>
    var receipt: Option<Signal>

    ghost function View(): SenderState
      reads this, identifiers
    {
      SenderState(local, remote, identifiers.ids, messageId, messagingId, state, signed, required, message, receipt)
    }

    constructor (local: InternalParty, remote: ExternalParty, ids: References, required: Option<seq<Comparable>>)
      ensures View() == NewSender(local, remote, ids, required)
      ensures fresh(identifiers)
    {
      this.local, this.remote, this.required := local, remote, required;
      identifiers := new ExchangeIdentifiers(ids);
      messageId, messagingId, state := Plain(ids.messageId), ids.messagingId, Created;
      signed, message, receipt := [], None, None;
    }

    /** The object that validating a stored exchange gives: empty identifiers are defaulted again. */
    constructor Validated(stored: StoredSender, local: InternalParty)
      ensures this.local == local && remote == stored.remote && required == stored.required
      ensures fresh(identifiers) && identifiers.ids == stored.ids
      ensures messageId == if stored.messageId == Plain("") then Plain(stored.ids.messageId) else stored.messageId
      ensures messagingId == if stored.messagingId == "" then stored.ids.messagingId else stored.messagingId
      ensures state == stored.state && signed == stored.signed && message == stored.message && receipt == stored.receipt
    {
      this.local, remote, required := local, stored.remote, stored.required;
      identifiers := new ExchangeIdentifiers(stored.ids);
      messageId := if stored.messageId == Plain("") then Plain(stored.ids.messageId) else stored.messageId;
      messagingId := if stored.messagingId == "" then stored.ids.messagingId else stored.messagingId;
      state, signed, message, receipt := stored.state, stored.signed, stored.message, stored.receipt;
    }

    /** model_dump_json: the credentials are left out. */
    method Dumped() returns (stored: StoredSender)
      ensures stored == Store(View())
      ensures forall credentials :: stored == Store(View().(local := local.(credentials := credentials)))
    {
      stored := StoredSender(local.identity, remote, identifiers.ids, messageId, messagingId, state, signed, required,
                             message, receipt);
    }

    /** build: nothing is assigned before packaging has succeeded, but the attachment map may have been
        filled by then. */
    method Build(payload: Bytes, arguments: BuilderArgs, session: SessionKey, now: Text, entry: (string, string),
                 packagingFails: bool) returns (wire: Option<Wire>)
      modifies this, identifiers
      ensures var after := AfterBuild(old(View()),
                                      Event.Build(payload, arguments, session, now, entry, packagingFails));
              && View() == after.sender
              && (wire.None? <==> after.raised.Some?)
      ensures wire.Some? ==> message.Some? && message.value.envelope.Some? && wire.value == WireOf(message.value)
    {
      if !Buildable(BuildInput(payload, local, remote, arguments, identifiers.ids, session, now)) {
        return None;
      }
      var first := identifiers.EncryptedDataAttachmentMapping(entry);
      if packagingFails {
        return None;
      }
      var built := BuiltMessage(BuildInput(payload, local, remote, arguments, identifiers.ids, session, now));
      StoreBuilt(built);
      wire := Some(WireOf(built));
    }

    /** The assignments that end build. */
    method StoreBuilt(built: Message)
      modifies this
      ensures View() == old(View()).(message := Some(built), messageId := built.messageId,
                                     messagingId := built.messagingId,
                                     signed := SignedReferences(built), state := Built)
    {
      message := Some(built);
      messageId := built.messageId;
      messagingId := built.messagingId;
      signed := SignedReferences(built);
      state := Built;
    }

    /** mark_sent, which has no guard. */
    method MarkSent()
      modifies this`state
      ensures View() == AfterEvent(old(View()), Event.MarkSent).sender
    {
      state := Sent;
    }

    /** receive_signal: the signal and the state are recorded before a receipt that proves nothing raises. */
    method ReceiveSignal(data: Bytes) returns (raised: Option<Raised>)
      modifies this`state, this`receipt
      ensures After(View(), raised) == AfterSignal(old(View()), data)
    {
      var r := ParseSignal(data, remote.certificate);
      if r.Err? {
        return Some(SignalError(r.error));
      }
      if r.value.originalMessageId != Some(messageId) {
        return Some(SignalError(Unproven(ForAnotherMessage)));
      }
      var outcome := Acknowledged;
      raised := None;
      if ErrorsOf(r.value) != [] {
        outcome := Rejected;
      } else {
        var problem := VerifyNonRepudiation(r.value, signed, required);
        if problem.Some? {
          outcome, raised := Unacknowledged, Some(SignalError(Unproven(problem.value)));
        }
      }
      receipt := Some(r.value);
      state := outcome;
    }
  }

  /** restore: a new object for the stored exchange, or a refusal of the party that is supplied. */
  method Restore(stored: StoredSender, local: InternalParty)
    returns (exchange: SendingExchange?, raised: Option<Raised>)
    ensures raised.Some? <==> local.identity.partyId != stored.identity.partyId
    ensures match RestoredFrom(stored, local)
            case Err(e) => raised == Some(e) && exchange == null
            case Ok(restored) => raised.None? && exchange != null && fresh(exchange) && fresh(exchange.identifiers)
                                 && exchange.View() == restored
  {
    if stored.identity.partyId != local.identity.partyId {
      return null, Some(MismatchedLocalParty);
    }
    exchange := new SendingExchange.Validated(stored, local);
    raised := None;
  }

  // ---------------------------------------------------------------- receiving

  class ReceivingExchange {
    const local: InternalParty
    const ids: References
    var remote: Option<ExternalParty>
    var messageId: Text
    var messagingId: string
    var state: ExchangeState
    var signed: seq<Comparable>
    var message: Option<Message>
    var receipt: Option<Signal>

    ghost function View(): ReceiverState
      reads this
    {
      ReceiverState(local, ids, remote, messageId, messagingId, state, signed, message, receipt)
    }

    constructor (local: InternalParty, ids: References)
      ensures View() == NewReceiver(local, ids)
    {
      this.local, this.ids := local, ids;
      remote, messageId, messagingId, state := None, Plain(""), "", Created;
      signed, message, receipt := [], None, None;
    }

    /** receive_message: the answer is built before anything is assigned. */
    method ReceiveMessage(m: Message, now: Text)
      modifies this
      ensures View() == AfterMessage(old(View()), m, now)
    {
      var sender := remote;
      if RemotePartyOf(m).Some? {
        sender := RemotePartyOf(m);
      }
      StoreReceived(m, sender, Signal(SignalEnvelope(m, local.credentials, ids, now), None));
    }

    /** The assignments that end receive_message. */
    method StoreReceived(m: Message, sender: Option<ExternalParty>, signal: Signal)
      modifies this
      ensures View() == old(View()).(message := Some(m), messageId := m.messageId, messagingId := m.messagingId,
                                     signed := SignedReferences(m), remote := sender, receipt := Some(signal),
                                     state := if m.error.Some? then Rejected else Received)
    {
      message := Some(m);
      messageId := m.messageId;
      messagingId := m.messagingId;
      signed := SignedReferences(m);
      remote := sender;
      receipt := Some(signal);
      state := if m.error.Some? then Rejected else Received;
    }

    /** receive: a local fault escapes and leaves the exchange as it was. */
    method Receive(c: Context, unpacked: Unpacked, now: Text) returns (escaped: Option<LocalFault>)
      modifies this
      ensures View() == AfterReceive(old(View()), c, unpacked, now)
      ensures escaped.Some? <==> ParseMessage(c, unpacked).Raised?
    {
      var outcome := Returned(NO_FIELDS, []);
      if unpacked.Err? {
        outcome := Returned(NO_FIELDS.(error := Some(unpacked.error)), []);
      } else {
        outcome := ParseWire(c, unpacked.value);
      }
      if outcome.Raised? {
        return Some(outcome.local);
      }
      ReceiveMessage(outcome.message, now);
      escaped := None;
    }
  }
}
