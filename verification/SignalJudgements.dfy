/** The outcome of reading every signal, and what every built signal says, with each condition and value
    written out (as4/core/receipt.py). */
module SignalJudgements {
  import opened Terms
  import opened XmlMapping
  import opened Schemas
  import opened Documents
  import opened Dsig
  import opened Errors
  import opened Messages
  import opened Receipts
  import opened Judgements

  // ---------------------------------------------------------------- reading

  /** A signal is read; or a ReceiptVerificationError is raised; or an exception of another class. */
  datatype Reading = Readable | Unprovable | OtherException {
    function Then(next: Reading): Reading {
      if Readable? then next else this
    }
  }

  predicate Reads(fault: Option<SignalFault>, r: Reading) {
    match fault
    case None => r == Readable
    case Some(Unproven(_)) => r == Unprovable
    case Some(Unhandled) => r == OtherException
  }

  /** Every reference resolves to an element, the digest of which matches. */
  ghost predicate Resolved(reference: Model, index: map<string, Element>) {
    var uri := AttributeOf(reference, Uri).GetOr("");
    var id := if uri != "" && uri[0] == '#' then uri[1..] else uri;
    id in index && DigestOf(reference, "http://www.w3.org/2001/10/xml-exc-c14n#", Xml(index[id])) == Passes
  }

  lemma DigestPasses(reference: Model, allowed: string, content: Bytes)
    ensures DigestMatches(reference, allowed, content) == Matches <==> DigestOf(reference, allowed, content) == Passes
  {
    DigestIsJudged(reference, allowed, content, "");
  }

  lemma ReferenceIsResolved(r: Model, index: map<string, Element>)
    ensures Resolved(r, index)
       <==> Target(r, index).Some? && ElementDigestMatches(r, Target(r, index).value) == Matches
  {
    UriIsCid(UriOf(r));
    if Target(r, index).Some? {
      DigestPasses(r, EXCLUSIVE_C14N, Xml(Target(r, index).value));
    }
  }

  lemma {:induction false} ReferencesAreResolved(references: seq<Model>, index: map<string, Element>)
    ensures SignalDigestProblem(references, index).None? <==> forall r | r in references :: Resolved(r, index)
  {
    if references != [] {
      var r := references[0];
      assert references == [r] + references[1..];
      ReferenceIsResolved(r, index);
      ReferencesAreResolved(references[1..], index);
    }
  }

  /** The document after the signature: distinct identifiers, a covered Messaging, and matching digests. */
  ghost function DocumentReading(doc: Element, references: seq<Model>): Reading {
    if !DistinctIds(IdAttributes(doc)) then OtherException
    else
      IndexIsExact(doc);
      var index := IndexById(doc).value;
      if (exists r | r in references :: ResolvesTo(r, index, Messaging))
         && forall r | r in references :: Resolved(r, index) then Readable
      else Unprovable
  }

  lemma DocumentIsRead(doc: Element, references: seq<Model>)
    ensures Reads(SignalContentProblem(doc, references), DocumentReading(doc, references))
  {
    IndexIsExact(doc);
    if IndexById(doc).Ok? {
      var index := IndexById(doc).value;
      CoverageMembers(references, index, {});
      TagIsCovered(references, index, Messaging);
      ReferencesAreResolved(references, index);
    }
  }

  /** The token that the signature names holds the expected certificate, and the signature verifies under it. */
  ghost function TokenReading(token: Model, signature: Model, signedInfo: Element, expected: Certificate): Reading {
    if AttributeOf(token, ValueType)
       != Some("http://docs.oasis-open.org/wss/2004/01/oasis-200401-wss-x509-token-profile-1.0#X509v3")
         then OtherException
    else if !TextOf(token).TokenText? then OtherException
    else if TextOf(token).certificate != expected then Unprovable
    else
      match SignatureJudgement(signature, signedInfo, expected)
      case Passes => Readable
      case Escapes(_) => OtherException
      case _ => Unprovable
  }

  lemma VerdictIsRead(signature: Model, signedInfo: Element, expected: Certificate)
    ensures Reads(SignalSignatureProblem(VerifySignature(signature, signedInfo, expected)),
                  match SignatureJudgement(signature, signedInfo, expected)
                  case Passes => Readable
                  case Escapes(_) => OtherException
                  case _ => Unprovable)
  {
  }

  ghost function SignatureReading(doc: Element, envelope: Model, expected: Certificate): Reading {
    var security := Child(Child(envelope, Header), Security);
    var signature := Child(security, Signature);
    if Children(security, Signature) == [] || forall k: nat :: !PointsTo(security, signature, k) then Unprovable
    else
      var k: nat :| PointsTo(security, signature, k);
      TokenReading(Children(security, BinarySecurityToken)[k], signature, SignedInfoIn(doc), expected)
      .Then(DocumentReading(doc, Children(Child(signature, SignedInfo), Reference)))
  }

  lemma SignalTail(doc: Element, envelope: Model, expected: Certificate, token: Model)
    requires OptionalChild(SecurityOf(envelope), Signature).Some?
    requires SigningToken(SecurityOf(envelope), Child(SecurityOf(envelope), Signature)) == Some(token)
    ensures var signature := Child(SecurityOf(envelope), Signature);
            SignalProblem(doc, envelope, expected)
            == if !TokenContentOf(token).Holds? then Some(Unhandled)
               else if TokenContentOf(token).certificate != expected then Some(Unproven(WrongSigner))
               else
                 var problem := SignalSignatureProblem(VerifySignature(signature, SignedInfoIn(doc), expected));
                 if problem.Some? then problem else SignalContentProblem(doc, ReferencesOf(signature))
  {
  }

  lemma SignalIsRead(doc: Element, envelope: Model, expected: Certificate)
    ensures Reads(SignalProblem(doc, envelope, expected), SignatureReading(doc, envelope, expected))
  {
    var security := SecurityOf(envelope);
    var signature := Child(security, Signature);
    SigningTokenIsPointedTo(security, signature);
    OnlyFirstIsPointedTo(security, signature);
    if OptionalChild(security, Signature).Some? && SigningToken(security, signature).Some? {
      SignalTail(doc, envelope, expected, SigningToken(security, signature).value);
      VerdictIsRead(signature, SignedInfoIn(doc), expected);
      DocumentIsRead(doc, ReferencesOf(signature));
    }
  }

  /** AS4Receipt.parse: one signal that is an error or names the message it answers, with a signature that
      proves it. */
  ghost function SignalReading(data: Bytes, expected: Certificate): Reading {
    if !data.Xml? || Problems(ENVELOPE, ToDict(data.root)) != [] then Unprovable
    else
      FirstProblemIsReported(ENVELOPE, ToDict(data.root));
      var envelope := Load(ENVELOPE, data.root).value;
      var signals := Children(Child(Child(envelope, Header), Messaging), SignalMessage);
      var signal := Child(Child(Child(envelope, Header), Messaging), SignalMessage);
      if |signals| >= 2 then Unprovable
      else if Children(signal, Error) == [] && Children(Child(signal, MessageInfo), RefToMessageId) == []
        then Unprovable
      else SignatureReading(data.root, envelope, expected)
  }

  /** The outcome of reading any octets as a signal, and the identifier it is then for. */
  lemma ReadingIsExact(data: Bytes, expected: Certificate)
    ensures Reads(if ReadSignal(data, expected).Err? then Some(ReadSignal(data, expected).error) else None,
                  SignalReading(data, expected))
    ensures ReadSignal(data, expected).Ok? ==>
              var signal := ReadSignal(data, expected).value;
              var info := Child(Child(MessagingOf(signal.envelope), SignalMessage), MessageInfo);
              && data.Xml? && Load(ENVELOPE, data.root) == Ok(signal.envelope)
              && signal.originalMessageId
                 == if Children(info, RefToMessageId) == [] then None
                    else Some(TextOf(Children(info, RefToMessageId)[0]))
  {
    if data.Xml? {
      FirstProblemIsReported(ENVELOPE, ToDict(data.root));
      if Load(ENVELOPE, data.root).Ok? {
        SignalIsRead(data.root, Load(ENVELOPE, data.root).value, expected);
      }
    }
  }

  // ---------------------------------------------------------------- building

  /** One error, with its code, severity and detail. */
  ghost predicate SaysError(signal: Model, code: string, severity: string, detail: string) {
    && |Children(signal, Error)| == 1
    && Child(signal, Error).attributes == map[ErrorCode := code, Severity := severity]
    && Child(signal, Error).children == map[ErrorDetail := [Model(map[], Some(Plain(detail)), map[])]]
  }

  /** One receipt, with one part for each reference, in order. */
  ghost predicate SaysReceipt(signal: Model, references: seq<Model>) {
    && |Children(signal, Receipt)| == 1
    && |Children(Child(signal, Receipt), NonRepudiationInformation)| == 1
    && var parts := Children(Child(Child(signal, Receipt), NonRepudiationInformation), MessagePartNRInformation);
       |parts| == |references|
       && forall k | 0 <= k < |parts| :: parts[k] == Model(map[], None, map[Reference := [references[k]]])
  }

  /** The signal names itself, its time, and the message it answers, unless that has no identifier; it is an
      error for a refused message and a receipt for every other. */
  ghost predicate SaysSignal(messaging: Model, m: Message, ids: References, now: Text) {
    var signal := Child(messaging, SignalMessage);
    var info := Child(signal, MessageInfo);
    && messaging.attributes == map[WsuId := ids.messagingId, MustUnderstand := "true"]
    && messaging.children.Keys == {SignalMessage} && |Children(messaging, SignalMessage)| == 1
    && |Children(signal, MessageInfo)| == 1
    && Children(info, Timestamp) == [Model(map[], Some(now), map[])]
    && Children(info, MessageId) == [Model(map[], Some(Plain(ids.messageId)), map[])]
    && Children(info, RefToMessageId)
       == (if m.messageId == Plain("") then [] else [Model(map[], Some(m.messageId), map[])])
    && if m.error.None? then
         signal.children.Keys == {MessageInfo, Receipt} && SaysReceipt(signal, SignatureReferences(m))
       else signal.children.Keys == {MessageInfo, Error} && |Children(signal, Error)| == 1
  }

  lemma ReceiptSays(references: seq<Model>, signal: Model)
    requires Children(signal, Receipt) == [ReceiptModel(references)]
    ensures SaysReceipt(signal, references)
  {
    assert references == [] ==> PartModels(references) == [];
  }

  lemma SignalMessageFields(m: Message, ids: References, now: Text)
    ensures var signal := SignalMessageModel(m, ids, now);
            && Children(signal, MessageInfo) == [MessageInfoModel(now, ids.messageId, m.messageId)]
            && (m.error.None? ==>
                  && signal.children.Keys == {MessageInfo, Receipt}
                  && Children(signal, Receipt) == [ReceiptModel(SignatureReferences(m))])
            && (m.error.Some? ==>
                  && signal.children.Keys == {MessageInfo, Error}
                  && Children(signal, Error) == [ErrorModel(m.error.value)])
  {
  }

  lemma InfoFields(now: Text, messageId: string, refTo: Text)
    ensures var info := MessageInfoModel(now, messageId, refTo);
            && Children(info, Timestamp) == [Model(map[], Some(now), map[])]
            && Children(info, MessageId) == [Model(map[], Some(Plain(messageId)), map[])]
            && Children(info, RefToMessageId) == (if refTo == Plain("") then [] else [Model(map[], Some(refTo), map[])])
  {
  }

  /** Everything that the header block of a built signal says. */
  lemma BuiltSignalSays(m: Message, ids: References, now: Text)
    ensures SaysSignal(SignalMessagingModel(m, ids, now), m, ids, now)
    ensures m.error.Some? && !m.error.value.Custom? ==>
              SaysError(Child(SignalMessagingModel(m, ids, now), SignalMessage),
                        AttributeOf(ErrorModel(m.error.value), ErrorCode).GetOr(""),
                        AttributeOf(ErrorModel(m.error.value), Severity).GetOr(""), DetailOf(m.error.value))
  {
    SignalMessageFields(m, ids, now);
    InfoFields(now, ids.messageId, m.messageId);
    var messaging := SignalMessagingModel(m, ids, now);
    assert Children(messaging, SignalMessage) == [SignalMessageModel(m, ids, now)];
    if m.error.None? {
      ReceiptSays(SignatureReferences(m), SignalMessageModel(m, ids, now));
    }
  }
}
