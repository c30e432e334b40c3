/** Signals: building the answer to a message, and reading the answer to one's own
    (as4/core/receipt.py, as4/core/references.py). */
module Receipts {
  import opened Terms
  import opened XmlMapping
  import opened Schemas
  import opened Documents
  import opened Dsig
  import opened Errors
  import opened Messages

  /** AS4References: the identifiers of one exchange. `attachments` maps attachment ids to
      encrypted-data ids, in insertion order. */
  datatype References = References(
    messageId: string,
    messagingId: string,
    conversationId: string,
    encryptedKeyTokenId: string,
    signatureTokenId: string,
    encryptedKeyId: string,
    signatureId: string,
    keyInfoId: string,
    tokenReferenceId: string,
    bodyId: string,
    attachments: seq<(string, string)>)

  // ---------------------------------------------------------------- building a signal

  function ListOf(t: Tag, ms: seq<Model>): map<Tag, seq<Model>> {
    if ms == [] then map[] else map[t := ms]
  }

  function MessageInfoModel(now: Text, messageId: string, refTo: Text): Model {
    Model(map[], None, map[Timestamp := [TextModel(now)], MessageId := [TextModel(Plain(messageId))]]
                       + (if refTo == Plain("") then map[] else map[RefToMessageId := [TextModel(refTo)]]))
  }

  function PartModels(references: seq<Model>): (r: seq<Model>)
    ensures |r| == |references|
    ensures forall i :: 0 <= i < |r| ==> r[i] == Model(map[], None, map[Reference := [references[i]]])
  {
    seq(|references|, i requires 0 <= i < |references| => Model(map[], None, map[Reference := [references[i]]]))
  }

  function ReceiptModel(references: seq<Model>): Model {
    Model(map[], None, map[NonRepudiationInformation :=
                             [Model(map[], None, ListOf(MessagePartNRInformation, PartModels(references)))]])
  }

  function ErrorModel(r: Refusal): Model {
    Model(
      map[ErrorCode := ErrorCodeOf(r), Severity := if r.BundledMessages? then "warning" else "failure"],
      None,
      map[ErrorDetail := [TextModel(Plain(DetailOf(r)))]])
  }

  /** for_message: an error signal for a message with a parse error, a receipt for any other. */
  function SignalMessageModel(m: Message, ids: References, now: Text): Model {
    var info := [MessageInfoModel(now, ids.messageId, m.messageId)];
    Model(map[], None,
          if m.error.Some? then map[MessageInfo := info, Error := [ErrorModel(m.error.value)]]
          else map[MessageInfo := info, Receipt := [ReceiptModel(SignatureReferences(m))]])
  }

  function SignalMessagingModel(m: Message, ids: References, now: Text): Model {
    Model(map[WsuId := ids.messagingId, MustUnderstand := "true"], None,
          map[SignalMessage := [SignalMessageModel(m, ids, now)]])
  }

  function BodyModel(ids: References): Model {
    Model(map[WsuId := ids.bodyId], None, map[])
  }

  /** The references both builders sign for the header block and the SOAP body. */
  function HeaderReferences(ids: References, messaging: Model): seq<Model> {
    [ElementReference(ids.messagingId, Dump(MESSAGING, Messaging, messaging)),
     ElementReference(ids.bodyId, Dump(BODY, Body, BodyModel(ids)))]
  }

  function SignatureOf(ids: References, key: Key, references: seq<Model>): Model {
    SignatureModel(ids.signatureId, ids.keyInfoId, ids.tokenReferenceId, ids.signatureTokenId, key, references)
  }

  function EnvelopeModel(security: Model, messaging: Model, ids: References): Model {
    Model(map[], None,
          map[Header := [Model(map[], None, map[Security := [security], Messaging := [messaging]])],
              Body := [BodyModel(ids)]])
  }

  /** An access point's own certificate and private key. */
  datatype Credentials = Credentials(certificate: Certificate, key: Key)

  function SignalReferences(m: Message, ids: References, now: Text): seq<Model> {
    HeaderReferences(ids, SignalMessagingModel(m, ids, now))
  }

  function SignalEnvelope(m: Message, own: Credentials, ids: References, now: Text): Model {
    var references := SignalReferences(m, ids, now);
    EnvelopeModel(
      Model(map[MustUnderstand := "true"], None,
            map[BinarySecurityToken := [TokenModel(ids.signatureTokenId, own.certificate)],
                Signature := [SignatureOf(ids, own.key, references)]]),
      SignalMessagingModel(m, ids, now),
      ids)
  }

  function SignalDocument(m: Message, own: Credentials, ids: References, now: Text): Element {
    Dump(ENVELOPE, Envelope, SignalEnvelope(m, own, ids, now))
  }

  // ---------------------------------------------------------------- reading a signal

  /** AS4Receipt: a built or parsed signal. */
  datatype Signal = Signal(envelope: Model, originalMessageId: Option<Text>)

  /** The causes of a ReceiptVerificationError. */
  datatype Problem =
    | NotReadable
    | NoRefToMessageId
    | NoSignature
    | NoSecurityToken
    | WrongSigner
    | BadSignature
    | NotVerifiable
    | MessagingNotCovered
    | NotInDocument(uri: string)
    | DigestDiffers(uri: string)
    | ForAnotherMessage
    | NoReceipt
    | NothingRequired
    | NotSent(reference: Comparable)
    | NotAcknowledged(reference: Comparable)

  /** Exceptions of other classes, which receive_signal does not handle. */
  datatype SignalFault = Unproven(problem: Problem) | Unhandled

  function SignalMessagesOf(envelope: Model): seq<Model> {
    Children(MessagingOf(envelope), SignalMessage)
  }

  function SignalMessageOf(envelope: Model): Model {
    Child(MessagingOf(envelope), SignalMessage)
  }

  function ErrorsOf(s: Signal): seq<Model> {
    Children(SignalMessageOf(s.envelope), Error)
  }

  function ReceiptOf(s: Signal): Option<Model> {
    OptionalChild(SignalMessageOf(s.envelope), Receipt)
  }

  function OriginalMessageId(envelope: Model): Option<Text> {
    var info := Child(SignalMessageOf(envelope), MessageInfo);
    if OptionalChild(info, RefToMessageId).Some? then Some(TextOf(Child(info, RefToMessageId))) else None
  }

  /** The reference loop of verify_signature: every reference is looked up as an element. */
  function SignalDigestProblem(references: seq<Model>, index: map<string, Element>): Option<Problem> {
    if references == [] then None
    else
      var r := references[0];
      if Target(r, index).None? then Some(NotInDocument(UriOf(r)))
      else
        match ElementDigestMatches(r, Target(r, index).value)
        case Matches => SignalDigestProblem(references[1..], index)
        case Differs => Some(DigestDiffers(UriOf(r)))
        case UnsupportedTransform => Some(NotVerifiable)
        case UnsupportedDigest => Some(NotVerifiable)
  }

  function SignalSignatureProblem(v: SignatureVerdict): Option<SignalFault> {
    match v
    case Verified => None
    case NotVerified => Some(Unproven(BadSignature))
    case UnsupportedCanonicalization => Some(Unproven(NotVerifiable))
    case UnsupportedSignature => Some(Unproven(NotVerifiable))
    case NoSignatureBytes => Some(Unhandled)
  }

  /** The document part of verify_signature, after signature.verify. */
  function SignalContentProblem(doc: Element, references: seq<Model>): Option<SignalFault> {
    var index := IndexById(doc);
    if index.Err? then Some(Unhandled)
    else if MessagingCovered !in CoverageOf(references, index.value, {}) then Some(Unproven(MessagingNotCovered))
    else
      var problem := SignalDigestProblem(references, index.value);
      if problem.Some? then Some(Unproven(problem.value)) else None
  }

  /** verify_signature. */
  function SignalProblem(doc: Element, envelope: Model, expected: Certificate): Option<SignalFault> {
    var security := SecurityOf(envelope);
    var signature := Child(security, Signature);
    if OptionalChild(security, Signature).None? then Some(Unproven(NoSignature))
    else
      var token := SigningToken(security, signature);
      if token.None? then Some(Unproven(NoSecurityToken))
      else if !TokenContentOf(token.value).Holds? then Some(Unhandled)
      else if TokenContentOf(token.value).certificate != expected then Some(Unproven(WrongSigner))
      else
        var problem := SignalSignatureProblem(VerifySignature(signature, SignedInfoIn(doc), expected));
        if problem.Some? then problem else SignalContentProblem(doc, ReferencesOf(signature))
  }

  /** AS4Receipt.parse. */
  function ReadSignal(data: Bytes, expected: Certificate): Result<Signal, SignalFault> {
    var doc := ParseXml(data);
    if doc.None? then Err(Unproven(NotReadable))
    else
      var envelope := Load(ENVELOPE, doc.value);
      if envelope.Err? then Err(Unproven(NotReadable))
      else if |SignalMessagesOf(envelope.value)| > 1 then Err(Unproven(NotReadable))
      else
        var signal := Signal(envelope.value, OriginalMessageId(envelope.value));
        if ErrorsOf(signal) == [] && signal.originalMessageId.None? then Err(Unproven(NoRefToMessageId))
        else
          var problem := SignalProblem(doc.value, envelope.value, expected);
          if problem.Some? then Err(problem.value) else Ok(signal)
  }

  // ---------------------------------------------------------------- non-repudiation

  function ReferencesInside(parts: seq<Model>): seq<Model> {
    if parts == [] then [] else Children(parts[0], Reference) + ReferencesInside(parts[1..])
  }

  function AcknowledgedModels(s: Signal): seq<Model> {
    if ReceiptOf(s).None? then []
    else ReferencesInside(Children(Child(ReceiptOf(s).value, NonRepudiationInformation), MessagePartNRInformation))
  }

  /** non_repudiated_references. */
  function Acknowledged(s: Signal): seq<Comparable> {
    Comparables(AcknowledgedModels(s))
  }

  function FirstOutside(xs: seq<Comparable>, ys: seq<Comparable>): Option<Comparable> {
    if xs == [] then None else if xs[0] !in ys then Some(xs[0]) else FirstOutside(xs[1..], ys)
  }

  /** verify_non_repudiation. */
  function NonRepudiationProblem(s: Signal, sent: seq<Comparable>, required: Option<seq<Comparable>>): Option<Problem> {
    if ReceiptOf(s).None? then Some(NoReceipt)
    else if required == Some([]) then Some(NothingRequired)
    else
      var extra := FirstOutside(Acknowledged(s), sent);
      if extra.Some? then Some(NotSent(extra.value))
      else
        var unmet := FirstOutside(required.GetOr(sent), Acknowledged(s));
        if unmet.Some? then Some(NotAcknowledged(unmet.value)) else None
  }

  function SetOf<T>(xs: seq<T>): set<T> {
    set x | x in xs
  }

  lemma {:induction false} FirstOutsideIsNone(xs: seq<Comparable>, ys: seq<Comparable>)
    ensures FirstOutside(xs, ys).None? <==> SetOf(xs) <= SetOf(ys)
  {
    if xs != [] {
      FirstOutsideIsNone(xs[1..], ys);
      assert SetOf(xs) == {xs[0]} + SetOf(xs[1..]);
    }
  }

  /** The check passes exactly when the signal holds a receipt, nothing beyond what was sent is
      acknowledged, everything required is, and an explicit requirement is not empty. */
  lemma NonRepudiationIsInclusion(s: Signal, sent: seq<Comparable>, required: Option<seq<Comparable>>)
    ensures NonRepudiationProblem(s, sent, required).None?
       <==> ReceiptOf(s).Some?
            && SetOf(Acknowledged(s)) <= SetOf(sent)
            && SetOf(required.GetOr(sent)) <= SetOf(Acknowledged(s))
            && required != Some([])
  {
    FirstOutsideIsNone(Acknowledged(s), sent);
    FirstOutsideIsNone(required.GetOr(sent), Acknowledged(s));
  }

  /** By default acknowledged and sent must be the same set; the verdict depends on the sets only;
      and a requirement outside what was sent is never met. */
  lemma NonRepudiationConsequences(s: Signal, sent: seq<Comparable>, sent': seq<Comparable>, required: seq<Comparable>)
    requires ReceiptOf(s).Some?
    ensures NonRepudiationProblem(s, sent, None).None? <==> SetOf(Acknowledged(s)) == SetOf(sent)
    ensures SetOf(sent) == SetOf(sent') ==>
              (NonRepudiationProblem(s, sent, None).None? <==> NonRepudiationProblem(s, sent', None).None?)
    ensures !(SetOf(required) <= SetOf(sent)) ==> NonRepudiationProblem(s, sent, Some(required)).Some?
  {
    NonRepudiationIsInclusion(s, sent, None);
    NonRepudiationIsInclusion(s, sent', None);
    NonRepudiationIsInclusion(s, sent, Some(required));
  }

  /** verify_non_repudiation, with its two loops. */
  method VerifyNonRepudiation(s: Signal, sent: seq<Comparable>, required: Option<seq<Comparable>>)
    returns (problem: Option<Problem>)
    ensures problem == NonRepudiationProblem(s, sent, required)
  {
    if ReceiptOf(s).None? {
      return Some(NoReceipt);
    }
    if required == Some([]) {
      return Some(NothingRequired);
    }
    var acknowledged := Acknowledged(s);
    for i := 0 to |acknowledged|
      invariant FirstOutside(acknowledged, sent) == FirstOutside(acknowledged[i..], sent)
    {
      if acknowledged[i] !in sent {
        return Some(NotSent(acknowledged[i]));
      }
    }
    var needed := required.GetOr(sent);
    for i := 0 to |needed|
      invariant FirstOutside(needed, acknowledged) == FirstOutside(needed[i..], acknowledged)
    {
      if needed[i] !in acknowledged {
        return Some(NotAcknowledged(needed[i]));
      }
    }
    problem := None;
  }
}
