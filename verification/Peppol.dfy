/** The Peppol profile of a user message: its routing checks and its builder
    (as4/profiles/peppol/message.py, as4/core/references.py). */
module Peppol {
  import opened Terms
  import opened XmlMapping
  import opened Schemas
  import opened Errors
  import opened Messages
  import opened DocumentIdentifier

  const PARTY_IDENTIFIER_TYPE := "urn:fdc:peppol.eu:2017:identifiers:ap"
  const ORIGINAL_SENDER := "originalSender"
  const FINAL_RECIPIENT := "finalRecipient"
  const DOCUMENTID := "DOCUMENTID"
  const PROCESSID := "PROCESSID"
  const COUNTRY_C1 := "COUNTRY_C1"

  // ---------------------------------------------------------------- routing

  function PartyTypeOf(userMessage: Model, direction: Tag): Option<string> {
    AttributeOf(Child(Child(Child(userMessage, PartyInfo), direction), PartyId), TypeName)
  }

  predicate PartiesArePeppol(userMessage: Model) {
    && PartyTypeOf(userMessage, From) == Some(PARTY_IDENTIFIER_TYPE)
    && PartyTypeOf(userMessage, To) == Some(PARTY_IDENTIFIER_TYPE)
  }

  /** The payload whose routing header counts: that of the first MIME attachment. */
  function FirstPayload(m: Message): Option<Bytes> {
    if m.attachments.first.Some? && m.attachments.first.value in m.decrypted then
      Some(m.decrypted[m.attachments.first.value])
    else None
  }

  /** The validated header of a business document, when it is well-formed, present and valid. */
  function BusinessHeader(c: Context, payload: Bytes): Option<Model> {
    var root := ParseXml(payload);
    if root.None? then None
    else
      var headers := Tagged(root.value.children, StandardBusinessDocumentHeader);
      if headers == [] || !c.schemaValid(headers[0]) then None
      else
        var document := Load(BUSINESS_DOCUMENT, root.value);
        if document.Err? then None else Some(Child(document.value, StandardBusinessDocumentHeader))
  }

  function ParticipantOf(header: Model, direction: Tag): Model {
    Child(Child(header, direction), Identifier)
  }

  /** A header property names the participant, in value and scheme. */
  predicate Names(userMessage: Model, property: string, participant: Model) {
    var declared := FindProperty(Children(Child(userMessage, MessageProperties), Property), property);
    && declared.Some?
    && TextOf(declared.value) == TextOf(participant)
    && AttributeOf(declared.value, TypeName) == AttributeOf(participant, Authority)
  }

  predicate ParticipantsAgree(userMessage: Model, header: Model) {
    && Names(userMessage, ORIGINAL_SENDER, ParticipantOf(header, Sender))
    && Names(userMessage, FINAL_RECIPIENT, ParticipantOf(header, Receiver))
  }

  /** The last scope of a type: later scopes replace earlier ones in the scope dictionary. */
  function FindScope(scopes: seq<Model>, scopeType: string): Option<Model> {
    if scopes == [] then None
    else
      var last := scopes[|scopes| - 1];
      if TextOf(Child(last, SbdhType)) == Plain(scopeType) then Some(last)
      else FindScope(scopes[..|scopes| - 1], scopeType)
  }

  function ScopesOf(header: Model): seq<Model> {
    Children(Child(header, BusinessScope), Scope)
  }

  /** The acceptor's answer, with the fault it causes. */
  function AcceptorFault(v: Verdict): Option<Fault> {
    match v
    case Accepted => None
    case NotServiced => Some(Refused(PeppolNotServiced))
    case RefusedWith(refusal) => Some(Refused(refusal))
    case Failed => Some(Escaped(AcceptorFailed))
  }

  function Ask(c: Context, recipient: Text, p: Progress): Step {
    if c.acceptor.None? then Continue(p)
    else
      var asked := p.(asked := p.asked + [recipient]);
      var fault := AcceptorFault(c.acceptor.value(recipient));
      if fault.Some? then Stop(asked, fault.value) else Continue(asked)
  }

  /** The scopes that name the document type and the process. */
  function ReadScopes(header: Model, p: Progress): Step {
    var document, process, country :=
      FindScope(ScopesOf(header), DOCUMENTID), FindScope(ScopesOf(header), PROCESSID),
      FindScope(ScopesOf(header), COUNTRY_C1);
    if document.None? || process.None? || country.None? then Refuse(p, PeppolSbdh)
    else
      Continue(p.(fields := p.fields.(
        documentType := Some(TextOf(Child(document.value, InstanceIdentifier))),
        documentScheme := Some(
          if OptionalChild(document.value, Identifier).Some? then TextOf(Child(document.value, Identifier))
          else Plain(BUSDOX_DOCID_QNS)),
        process := Some(TextOf(Child(process.value, InstanceIdentifier))))))
  }

  /** process_sbdh. */
  function ProcessSbdh(c: Context, p: Progress): Step
    requires p.fields.envelope.Some?
  {
    var userMessage := RequiredUserMessage(p.fields.envelope.value);
    if userMessage.Err? then Refuse(p, userMessage.error)
    else if !PartiesArePeppol(userMessage.value) then Refuse(p, PeppolPartyIdentifier)
    else
      var payload := FirstPayload(p.fields);
      var header := if payload.None? then None else BusinessHeader(c, payload.value);
      if header.None? then Refuse(p, PeppolSbdh) else Route(c, userMessage.value, header.value, p)
  }

  /** What follows the schema check: participants, acceptor, scopes. */
  function Route(c: Context, userMessage: Model, header: Model, p: Progress): Step {
    var recipient := TextOf(ParticipantOf(header, Receiver));
    var routed := p.(fields := p.fields.(sender := Some(TextOf(ParticipantOf(header, Sender))),
                                         recipient := Some(recipient)));
    if c.policy.verifyParticipants && !ParticipantsAgree(userMessage, header) then Refuse(routed, PeppolSbdh)
    else
      var accepted :- Ask(c, recipient, routed);
      ReadScopes(header, accepted)
  }

  // ---------------------------------------------------------------- parse

  datatype Outcome = Returned(message: Message, asked: seq<Text>) | Raised(local: LocalFault, asked: seq<Text>)

  function Pipeline(c: Context, w: Wire): Step {
    var start := Progress(NO_FIELDS, []);
    var doc := ParseXml(w.soap);
    if doc.None? then Refuse(start, MalformedSoapEnvelope)
    else
      var p1 :- Identify(doc.value, start);
      var p2 :- CoreProcess(c, doc.value, w.attachments, p1);
      ProcessSbdh(c, p2)
  }

  /** AS4Message.parse with the Peppol process: the fields filled so far, and the refusal. */
  function Parse(c: Context, w: Wire): Outcome {
    match Pipeline(c, w)
    case Continue(p) => Returned(p.fields, p.asked)
    case Stop(p, Refused(r)) => Returned(p.fields.(error := Some(r)), p.asked)
    case Stop(p, Escaped(f)) => Raised(f, p.asked)
  }
}
