/** Parsing a received user message, up to decompression (as4/core/message.py). */
module Messages {
  import opened Terms
  import opened XmlMapping
  import opened Schemas
  import opened Documents
  import opened Dsig
  import opened Errors

  const RSA_OAEP := "http://www.w3.org/2009/xmlenc11#rsa-oaep"
  const AES128_GCM := "http://www.w3.org/2009/xmlenc11#aes128-gcm"
  const GZIP := "application/gzip"
  const COMPRESSION_TYPE := "CompressionType"

  // ---------------------------------------------------------------- context

  datatype Resolution = Trusted(certificate: Certificate) | Untrusted | NotConfigured

  /** Decides from eb:From and the embedded certificate which certificate must have signed. */
  type SignerResolver = (Model, Option<Certificate>) -> Resolution

  datatype SecurityPolicy = SecurityPolicy(
    signRequired: bool,
    encryptRequired: bool,
    resolver: SignerResolver,
    requiredCoverage: set<Coverage>,
    verifyDigests: bool,
    maximumSize: nat,
    verifyParticipants: bool)

  datatype Verdict = Accepted | NotServiced | RefusedWith(refusal: Refusal) | Failed

  /** `key` is the local private key, `sizeOf` is `len`, and `schemaValid` is the SBDH schema. */
  datatype Context = Context(
    key: Key,
    policy: SecurityPolicy,
    acceptor: Option<Text -> Verdict>,
    schemaValid: Element -> bool,
    sizeOf: Bytes -> nat)

  /** The MIME attachments by content id; `first` is the id of the first one. */
  datatype Attachments = Attachments(first: Option<string>, parts: map<string, Bytes>)

  datatype Wire = Wire(soap: Bytes, attachments: Attachments)

  datatype PartyIdentity = PartyIdentity(partyId: Text, partyType: Option<string>)

  /** A parsed message: the fields that parsing had filled in when it ended. */
  datatype Message = Message(
    messageId: Text,
    messagingId: string,
    addressedTo: Option<PartyIdentity>,
    attachments: Attachments,
    envelope: Option<Model>,
    signer: Option<Certificate>,
    decrypted: map<string, Bytes>,
    sender: Option<Text>,
    recipient: Option<Text>,
    documentType: Option<Text>,
    documentScheme: Option<Text>,
    process: Option<Text>,
    error: Option<Refusal>)

  const NO_ATTACHMENTS := Attachments(None, map[])
  const NO_FIELDS := Message(Plain(""), "", None, NO_ATTACHMENTS, None, None, map[], None, None, None, None, None, None)

  /** The fields filled so far, and the participants the acceptor has been asked about. */
  datatype Progress = Progress(fields: Message, asked: seq<Text>)

  datatype Step = Continue(progress: Progress) | Stop(progress: Progress, fault: Fault) {
    predicate IsFailure() {
      Stop?
    }

    function PropagateFailure(): Step
      requires Stop?
    {
      this
    }

    function Extract(): Progress
      requires Continue?
    {
      progress
    }
  }

  // ---------------------------------------------------------------- identification

  function ChildrenTagged(es: seq<Element>, t: Tag): seq<Element> {
    if es == [] then [] else Tagged(es[0].children, t) + ChildrenTagged(es[1..], t)
  }

  /** The elements at the end of a child path, in document order. */
  function Path(es: seq<Element>, tags: seq<Tag>): seq<Element>
    decreases |tags|, es
  {
    if tags == [] then es else Path(ChildrenTagged(es, tags[0]), tags[1..])
  }

  function Find(e: Element, tags: seq<Tag>): Option<Element> {
    var found := Path([e], tags);
    if found == [] then None else Some(found[0])
  }

  function FindText(e: Element, tags: seq<Tag>): Text {
    var found := Find(e, tags);
    if found.None? then Plain("") else found.value.text
  }

  const MESSAGING_PATH := [Header, Messaging]
  const MESSAGE_ID_PATH := [Header, Messaging, UserMessage, MessageInfo, MessageId]
  const PARTY_TO_PATH := [Header, Messaging, UserMessage, PartyInfo, To]

  function RawAttribute(e: Element, n: AttributeName): string {
    var attributes := AttributeMap(e.attributes);
    if n in attributes then attributes[n] else ""
  }

  /** pre_validate: the two identifiers that any answer needs. */
  function ReadIds(doc: Element): Result<(Text, string), Refusal> {
    var messaging := Find(doc, MESSAGING_PATH);
    if messaging.None? then Err(MessagingNotFound)
    else
      var messageId, messagingId := FindText(doc, MESSAGE_ID_PATH), RawAttribute(messaging.value, WsuId);
      if messageId == Plain("") || messagingId == "" then Err(MessageIdNotFound) else Ok((messageId, messagingId))
  }

  function IdentityOf(party: Model): PartyIdentity {
    PartyIdentity(TextOf(Child(party, PartyId)), AttributeOf(Child(party, PartyId), TypeName))
  }

  function AddressedTo(doc: Element): Result<PartyIdentity, Refusal> {
    var to := Find(doc, PARTY_TO_PATH);
    if to.None? then Err(PartyToNotFound)
    else
      var party := Load(PARTY, to.value);
      if party.Err? then Err(FromValidationError(party.error)) else Ok(IdentityOf(party.value))
  }

  // ---------------------------------------------------------------- reading the envelope

  function SecurityOf(envelope: Model): Model {
    Child(Child(envelope, Header), Security)
  }

  function MessagingOf(envelope: Model): Model {
    Child(Child(envelope, Header), Messaging)
  }

  /** Messaging.user_message: None when there is none, refused when several are bundled. */
  function UserMessageOf(envelope: Model): Result<Option<Model>, Refusal> {
    var messages := Children(MessagingOf(envelope), UserMessage);
    if |messages| > 1 then Err(BundledMessages) else Ok(OptionalChild(MessagingOf(envelope), UserMessage))
  }

  function RequiredUserMessage(envelope: Model): Result<Model, Refusal> {
    var message :- UserMessageOf(envelope);
    if message.None? then Err(UserMessageNotFound) else Ok(message.value)
  }

  function SignatureReferences(m: Message): seq<Model> {
    if m.envelope.None? then [] else ReferencesOf(Child(SecurityOf(m.envelope.value), Signature))
  }

  function SignedReferences(m: Message): seq<Comparable> {
    Comparables(SignatureReferences(m))
  }

  function PartInfos(userMessage: Model): seq<Model> {
    Children(Child(userMessage, PayloadInfo), PartInfo)
  }

  function HrefOf(part: Model): string {
    AttributeOf(part, Href).GetOr("")
  }

  /** The hrefs that the user message declares. */
  function DeclaredHrefs(userMessage: Model): set<string> {
    set part | part in PartInfos(userMessage) && HrefOf(part) != "" :: HrefOf(part)
  }

  /** The element that the header's SignedInfo model was loaded from. */
  function SignedInfoIn(doc: Element): Element {
    FirstTagged(FirstTagged(FirstTagged(FirstTagged(doc, Header), Security), Signature), SignedInfo)
  }

  // ---------------------------------------------------------------- signature

  function Target(reference: Model, index: map<string, Element>): Option<Element> {
    var id := WithoutHash(UriOf(reference));
    if id in index then Some(index[id]) else None
  }

  /** Some element reference resolves to an element with this tag. */
  predicate CoversTag(references: seq<Model>, index: map<string, Element>, t: Tag) {
    exists r | r in references :: !IsCid(UriOf(r)) && Target(r, index).Some? && Target(r, index).value.tag == t
  }

  function SignedPayloads(references: seq<Model>): set<string> {
    set r | r in references && IsCid(UriOf(r)) :: UriOf(r)
  }

  function CoverageOf(references: seq<Model>, index: map<string, Element>, hrefs: set<string>): set<Coverage> {
    (if CoversTag(references, index, Messaging) then {MessagingCovered} else {})
    + (if CoversTag(references, index, Body) then {BodyCovered} else {})
    + (if hrefs <= SignedPayloads(references) then {PayloadsCovered} else {})
  }

  /** verify_reference_digests: the first element reference that does not resolve or not verify. */
  function ElementDigestFault(references: seq<Model>, index: map<string, Element>): Option<Refusal> {
    if references == [] then None
    else
      var r := references[0];
      if IsCid(UriOf(r)) then ElementDigestFault(references[1..], index)
      else if Target(r, index).None? then Some(ReferenceTargetNotFound(UriOf(r)))
      else
        var fault := DigestRefusal(ElementDigestMatches(r, Target(r, index).value), UriOf(r));
        if fault.Some? then fault else ElementDigestFault(references[1..], index)
  }

  function DigestRefusal(v: DigestVerdict, uri: string): Option<Refusal> {
    match v
    case Matches => None
    case Differs => Some(DigestMismatch(uri))
    case UnsupportedTransform => Some(Refusal.UnsupportedTransform)
    case UnsupportedDigest => Some(UnsupportedDigestAlgorithm)
  }

  /** verify_attachment_digests, over the decrypted but still compressed attachments. */
  function AttachmentDigestFault(references: seq<Model>, attachments: map<string, Bytes>): Option<Refusal> {
    if references == [] then None
    else
      var r := references[0];
      var id := WithoutCid(UriOf(r));
      if !IsCid(UriOf(r)) then AttachmentDigestFault(references[1..], attachments)
      else if id !in attachments then Some(ReferenceTargetNotFound(UriOf(r)))
      else
        var fault := DigestRefusal(BytesDigestMatches(r, attachments[id]), UriOf(r));
        if fault.Some? then fault else AttachmentDigestFault(references[1..], attachments)
  }

  function FindToken(tokens: seq<Model>, uri: string): Option<Model> {
    if tokens == [] then None
    else if AttributeOf(tokens[0], WsuId).Some? && uri == "#" + AttributeOf(tokens[0], WsuId).value then Some(tokens[0])
    else FindToken(tokens[1..], uri)
  }

  /** The URI of the first security token reference of a signature's KeyInfo, "" when absent. */
  function TokenUri(signature: Model): string {
    AttributeOf(Child(Child(Child(signature, KeyInfo), SecurityTokenReference), TokenReference), Uri).GetOr("")
  }

  function SigningToken(security: Model, signature: Model): Option<Model> {
    if TokenUri(signature) == "" then None
    else FindToken(Children(security, BinarySecurityToken), TokenUri(signature))
  }

  datatype TokenContent = Holds(certificate: Certificate) | WrongValueType | Unreadable

  /** BinarySecurityToken.x509_certificate. */
  function TokenContentOf(token: Model): TokenContent {
    if AttributeOf(token, ValueType) != Some(X509_V3) then WrongValueType
    else if TextOf(token).TokenText? then Holds(TextOf(token).certificate)
    else Unreadable
  }

  function ResolveSigner(policy: SecurityPolicy, partyFrom: Model, token: Model): Result<Certificate, Fault> {
    match TokenContentOf(token)
    case WrongValueType => Err(Refused(UnsupportedSecurityTokenType))
    case Unreadable => Err(Escaped(UnreadableToken))
    case Holds(embedded) =>
      match policy.resolver(partyFrom, Some(embedded))
      case Trusted(certificate) => Ok(certificate)
      case Untrusted => Err(Refused(UntrustedSigner))
      case NotConfigured => Err(Escaped(SignerNotConfigured))
  }

  function SignatureFault(v: SignatureVerdict): Option<Fault> {
    match v
    case Verified => None
    case NotVerified => Some(Refused(SignatureVerificationFailed))
    case UnsupportedCanonicalization => Some(Refused(Refusal.UnsupportedTransform))
    case UnsupportedSignature => Some(Refused(UnsupportedSignatureAlgorithm))
    case NoSignatureBytes => Some(Escaped(UnreadableSignatureValue))
  }

  /** The part of get_verified_signature that follows signature.verify. */
  function ContentFault(policy: SecurityPolicy, references: seq<Model>, userMessage: Model, index: map<string, Element>)
    : Option<Refusal>
  {
    var missing := policy.requiredCoverage - CoverageOf(references, index, DeclaredHrefs(userMessage));
    if missing != {} then Some(SignatureCoverage(missing))
    else if policy.verifyDigests then ElementDigestFault(references, index)
    else None
  }

  /** get_verified_signature: the signer's certificate, None for an unsigned message that the policy
      lets through. */
  function VerifiedSigner(policy: SecurityPolicy, doc: Element, envelope: Model, index: map<string, Element>)
    : Result<Option<Certificate>, Fault>
  {
    var security := SecurityOf(envelope);
    if OptionalChild(security, Signature).None? then
      if policy.signRequired then Err(Refused(SignatureRequired)) else Ok(None)
    else
      var signature := Child(security, Signature);
      var token := SigningToken(security, signature);
      if token.None? then Err(Refused(SecurityTokenReferenceNotFound))
      else
        var userMessage := RequiredUserMessage(envelope);
        if userMessage.Err? then Err(Refused(userMessage.error))
        else SignedBy(policy, doc, signature, token.value, userMessage.value, index)
  }

  /** The part of get_verified_signature that follows the user message: resolver, signature, content. */
  function SignedBy(policy: SecurityPolicy, doc: Element, signature: Model, token: Model, userMessage: Model,
                    index: map<string, Element>): Result<Option<Certificate>, Fault>
  {
    var signer :- ResolveSigner(policy, Child(Child(userMessage, PartyInfo), From), token);
    var fault := SignatureFault(VerifySignature(signature, SignedInfoIn(doc), signer));
    if fault.Some? then Err(fault.value)
    else
      var content := ContentFault(policy, ReferencesOf(signature), userMessage, index);
      if content.Some? then Err(Refused(content.value)) else Ok(Some(signer))
  }

  // ---------------------------------------------------------------- decryption

  function FindEncryptedData(data: seq<Model>, id: string): Option<Model> {
    if data == [] then None
    else if AttributeOf(data[0], PlainId) == Some(id) then Some(data[0])
    else FindEncryptedData(data[1..], id)
  }

  datatype Opened = Opened(id: string, content: Bytes)

  /** The attachment that a data reference leads to, with its decryption. */
  function DecryptReference(reference: Model, security: Model, attachments: map<string, Bytes>, session: SessionKey)
    : Result<Opened, Refusal>
  {
    var uri := UriOf(reference);
    if uri == "" then Err(EncryptedDataReferenceNotFound)
    else
      var data := FindEncryptedData(Children(security, EncryptedData), uri[1..]);
      if data.None? then Err(EncryptedDataNotFound(uri))
      else
        var cipher := AttributeOf(Child(Child(data.value, CipherData), CipherReference), Uri).GetOr("");
        var id := WithoutCid(cipher);
        if !IsCid(cipher) then Err(CipherReferenceNotFound)
        else if id !in attachments then Err(EncryptedAttachmentNotFound(id))
        else if AttributeOf(Child(data.value, EncryptionMethod), Algorithm) != Some(AES128_GCM) then
          Err(UnsupportedEncryptionAlgorithm)
        else
          var content := Open(session, attachments[id]);
          if content.None? then Err(DecryptionFailed) else Ok(Opened(id, content.value))
  }

  function DecryptReferences(references: seq<Model>, security: Model, attachments: map<string, Bytes>,
                             session: SessionKey, decrypted: map<string, Bytes>): Result<map<string, Bytes>, Refusal>
    decreases |references|
  {
    if references == [] then Ok(decrypted)
    else
      var found :- DecryptReference(references[0], security, attachments, session);
      DecryptReferences(references[1..], security, attachments, session, decrypted[found.id := found.content])
  }

  function DataReferences(security: Model): seq<Model> {
    Children(Child(Child(security, EncryptedKey), ReferenceList), DataReference)
  }

  /** The session key, unwrapped with the local private key. */
  function SessionKeyOf(security: Model, key: Key): Result<SessionKey, Refusal> {
    var encryptedKey := Child(security, EncryptedKey);
    var cipherValue := Child(Child(encryptedKey, CipherData), CipherValue);
    if cipherValue.text.None? then Err(CipherValueNotFound)
    else if AttributeOf(Child(encryptedKey, EncryptionMethod), Algorithm) != Some(RSA_OAEP) then
      Err(UnsupportedEncryptionAlgorithm)
    else
      var session := Unwrap(key, TextOf(cipherValue));
      if session.None? then Err(DecryptionFailed) else Ok(session.value)
  }

  /** get_decrypted_data. */
  function DecryptedData(policy: SecurityPolicy, key: Key, security: Model, attachments: map<string, Bytes>)
    : Result<map<string, Bytes>, Refusal>
  {
    if OptionalChild(security, EncryptedKey).None? then
      if policy.encryptRequired then Err(EncryptionRequired) else Ok(map[])
    else
      var session :- SessionKeyOf(security, key);
      DecryptReferences(DataReferences(security), security, attachments, session, map[])
  }

  // ---------------------------------------------------------------- decompression

  function FindProperty(properties: seq<Model>, name: string): Option<Model> {
    if properties == [] then None
    else if AttributeOf(properties[0], Name) == Some(name) then Some(properties[0])
    else FindProperty(properties[1..], name)
  }

  predicate IsGzipPart(part: Model) {
    var compression := FindProperty(Children(Child(part, PartProperties), Property), COMPRESSION_TYPE);
    compression.Some? && TextOf(compression.value) == Plain(GZIP)
  }

  /** PartProperties.decompress. */
  function Decompress(part: Model, content: Bytes, maximumSize: nat, sizeOf: Bytes -> nat): Result<Bytes, Refusal> {
    if !IsGzipPart(part) then Ok(content)
    else if Gunzip(content).None? then Err(DecompressionFailed)
    else if sizeOf(Gunzip(content).value) > maximumSize then Err(DecompressedPayloadTooLarge)
    else Ok(Gunzip(content).value)
  }

  /** The decrypted data after the part loop, and the refusal that ended it early. */
  datatype Decompressed = Decompressed(data: map<string, Bytes>, fault: Option<Refusal>)

  function DecompressParts(parts: seq<Model>, attachments: map<string, Bytes>, data: map<string, Bytes>,
                           maximumSize: nat, sizeOf: Bytes -> nat): Decompressed
    decreases |parts|
  {
    if parts == [] then Decompressed(data, None)
    else
      var part, rest := parts[0], parts[1..];
      var id := WithoutCid(HrefOf(part));
      if HrefOf(part) == "" then DecompressParts(rest, attachments, data, maximumSize, sizeOf)
      else if id !in attachments then Decompressed(data, Some(PartInfoWithoutMimePart(HrefOf(part))))
      else if id !in data then DecompressParts(rest, attachments, data, maximumSize, sizeOf)
      else
        var content := Decompress(part, data[id], maximumSize, sizeOf);
        if content.Err? then Decompressed(data, Some(content.error))
        else DecompressParts(rest, attachments, data[id := content.value], maximumSize, sizeOf)
  }

  // ---------------------------------------------------------------- the core pipeline

  function Refuse(p: Progress, r: Refusal): Step {
    Stop(p, Refused(r))
  }

  /** The identifiers and the addressee. */
  function Identify(doc: Element, p: Progress): Step {
    var ids := ReadIds(doc);
    if ids.Err? then Refuse(p, ids.error)
    else
      var identified := p.(fields := p.fields.(messageId := ids.value.0, messagingId := ids.value.1));
      var to := AddressedTo(doc);
      if to.Err? then Refuse(identified, to.error)
      else Continue(identified.(fields := identified.fields.(addressedTo := Some(to.value))))
  }

  /** The typed envelope, then the signer, from a document whose identifiers are distinct. */
  function Authenticate(c: Context, doc: Element, attachments: Attachments, p: Progress): (r: Step)
    ensures r.Continue? ==> r.progress.fields.envelope.Some?
  {
    var received := p.(fields := p.fields.(attachments := attachments));
    var envelope := Load(ENVELOPE, doc);
    if envelope.Err? then Refuse(received, FromValidationError(envelope.error))
    else
      var typed := received.(fields := received.fields.(envelope := Some(envelope.value)));
      var index := IndexById(doc);
      if index.Err? then Refuse(typed, DuplicateElementId(index.error))
      else
        var signer := VerifiedSigner(c.policy, doc, envelope.value, index.value);
        if signer.Err? then Stop(typed, signer.error)
        else Continue(typed.(fields := typed.fields.(signer := signer.value)))
  }

  /** Decryption, and the digests of the attachments while they are still compressed. */
  function Decrypt(c: Context, p: Progress): (r: Step)
    requires p.fields.envelope.Some?
    ensures r.progress.fields.envelope == p.fields.envelope
  {
    var security := SecurityOf(p.fields.envelope.value);
    var data := DecryptedData(c.policy, c.key, security, p.fields.attachments.parts);
    if data.Err? then Refuse(p, data.error)
    else
      var readable := p.(fields := p.fields.(decrypted := data.value));
      var fault :=
        if OptionalChild(security, Signature).Some? && c.policy.verifyDigests then
          AttachmentDigestFault(SignatureReferences(p.fields), data.value)
        else None;
      if fault.Some? then Refuse(readable, fault.value) else Continue(readable)
  }

  /** Decompression of the declared parts. */
  function Unpack(c: Context, p: Progress): (r: Step)
    requires p.fields.envelope.Some?
    ensures r.progress.fields.envelope == p.fields.envelope
  {
    var userMessage := RequiredUserMessage(p.fields.envelope.value);
    if userMessage.Err? then Refuse(p, userMessage.error)
    else if OptionalChild(userMessage.value, PayloadInfo).None? then Refuse(p, PayloadInfoNotFound)
    else
      var d := DecompressParts(PartInfos(userMessage.value), p.fields.attachments.parts, p.fields.decrypted,
                               c.policy.maximumSize, c.sizeOf);
      var unpacked := p.(fields := p.fields.(decrypted := d.data));
      if d.fault.Some? then Refuse(unpacked, d.fault.value) else Continue(unpacked)
  }

  /** AS4Message.process. */
  function CoreProcess(c: Context, doc: Element, attachments: Attachments, p: Progress): (r: Step)
    ensures r.Continue? ==> r.progress.fields.envelope.Some?
  {
    var p1 :- Authenticate(c, doc, attachments, p);
    var p2 :- Decrypt(c, p1);
    Unpack(c, p2)
  }
}
