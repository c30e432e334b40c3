/** Building a Peppol user message (as4/profiles/peppol/message.py). */
module Builder {
  import opened Terms
  import opened XmlMapping
  import opened Schemas
  import opened Dsig
  import opened Messages
  import opened DocumentIdentifier
  import opened Peppol
  import opened Receipts

  const INITIATOR := "http://docs.oasis-open.org/ebxml-msg/ebms/v3.0/ns/core/200704/initiator"
  const RESPONDER := "http://docs.oasis-open.org/ebxml-msg/ebms/v3.0/ns/core/200704/responder"
  const PEPPOL_AP_PROVIDER := "urn:fdc:peppol.eu:2017:agreements:tia:ap_provider"
  const CENBII_PROCID_UBL := "cenbii-procid-ubl"
  const ISO6523_ACTOR_ID := "iso6523-actorid-upis"
  const MGF1_SHA256 := "http://www.w3.org/2009/xmlenc11#mgf1sha256"
  const ATTACHMENT_CONTENT_ONLY := "http://docs.oasis-open.org/wss/oasis-wss-SwAProfile-1.1#Attachment-Content-Only"
  const ENCRYPTED_KEY_TOKEN_TYPE := "http://docs.oasis-open.org/wss/oasis-wss-soap-message-security-1.1#EncryptedKey"
  const ATTACHMENT_CIPHERTEXT_TRANSFORM :=
    "http://docs.oasis-open.org/wss/oasis-wss-SwAProfile-1.1#Attachment-Ciphertext-Transform"

  datatype InternalParty = InternalParty(identity: PartyIdentity, credentials: Credentials)

  datatype ExternalParty = ExternalParty(identity: PartyIdentity, certificate: Certificate)

  datatype BuilderArgs = BuilderArgs(
    sender: string,
    recipient: string,
    documentType: DocumentId,
    instanceId: string,
    process: string,
    country: string)

  /** Everything one build depends on: `session` and `now` are the fresh session key and the clock. */
  datatype BuildInput = BuildInput(
    payload: Bytes,
    local: InternalParty,
    remote: ExternalParty,
    arguments: BuilderArgs,
    ids: References,
    session: SessionKey,
    now: Text)

  // ---------------------------------------------------------------- the business document

  function Only(t: Tag, m: Model): map<Tag, seq<Model>> {
    map[t := [m]]
  }

  function ParticipantModel(value: string): Model {
    Model(map[], None, Only(Identifier, Model(map[Authority := ISO6523_ACTOR_ID], Some(Plain(value)), map[])))
  }

  function ScopeModel(scopeType: string, instance: string, identifier: Option<string>): Model {
    Model(map[], None,
          map[SbdhType := [TextModel(Plain(scopeType))], InstanceIdentifier := [TextModel(Plain(instance))]]
          + (if identifier.Some? then map[Identifier := [TextModel(Plain(identifier.value))]] else map[]))
  }

  function ScopeModels(a: BuilderArgs): seq<Model> {
    [ScopeModel(DOCUMENTID, Print(a.documentType), Some(BUSDOX_DOCID_QNS)),
     ScopeModel(PROCESSID, a.process, Some(CENBII_PROCID_UBL)),
     ScopeModel(COUNTRY_C1, a.country, None)]
  }

  function DocumentIdentificationModel(a: BuilderArgs, rootName: string, now: Text): Model {
    Model(map[], None,
          map[Standard := [TextModel(Plain(RootNamespace(a.documentType)))],
              TypeVersion := [TextModel(Plain(a.documentType.version))],
              InstanceIdentifier := [TextModel(Plain(a.instanceId))],
              SbdhType := [TextModel(Plain(rootName))],
              CreationDateAndTime := [TextModel(now)]])
  }

  function BusinessHeaderModel(a: BuilderArgs, rootName: string, now: Text): Model {
    Model(map[], None,
          map[HeaderVersion := [TextModel(Plain("1.0"))],
              Sender := [ParticipantModel(a.sender)],
              Receiver := [ParticipantModel(a.recipient)],
              DocumentIdentification := [DocumentIdentificationModel(a, rootName, now)],
              BusinessScope := [Model(map[], None, map[Scope := ScopeModels(a)])]])
  }

  function BusinessDocumentModel(a: BuilderArgs, rootName: string, now: Text): Model {
    Model(map[], None, Only(StandardBusinessDocumentHeader, BusinessHeaderModel(a, rootName, now)))
  }

  /** The dumped business document, with the caller's payload appended to it. */
  function BusinessDocumentElement(a: BuilderArgs, rootName: string, now: Text, payload: Element): Element {
    var e := Dump(BUSINESS_DOCUMENT, StandardBusinessDocument, BusinessDocumentModel(a, rootName, now));
    e.(children := e.children + [payload])
  }

  // ---------------------------------------------------------------- the user message

  function PartyModel(p: PartyIdentity, role: string): Model {
    Model(map[], None,
          map[PartyId := [Model(if p.partyType.Some? then map[TypeName := p.partyType.value] else map[],
                                Some(p.partyId), map[])],
              Role := [TextModel(Plain(role))]])
  }

  function PropertyModel(name: string, value: string, propertyType: Option<string>): Model {
    Model(map[Name := name] + (if propertyType.Some? then map[TypeName := propertyType.value] else map[]),
          Some(Plain(value)), map[])
  }

  const GZIP_PROPERTIES := Model(map[], None, map[Property := [
                                   PropertyModel("MimeType", "application/xml", None),
                                   PropertyModel(COMPRESSION_TYPE, GZIP, None)]])

  function PartInfoModel(attachmentId: string): Model {
    Model(map[Href := "cid:" + attachmentId], None, Only(PartProperties, GZIP_PROPERTIES))
  }

  function PartInfoModels(attachments: seq<(string, string)>): (r: seq<Model>)
    ensures |r| == |attachments|
    ensures forall i :: 0 <= i < |r| ==> r[i] == PartInfoModel(attachments[i].0)
  {
    seq(|attachments|, i requires 0 <= i < |attachments| => PartInfoModel(attachments[i].0))
  }

  function CollaborationModel(a: BuilderArgs, conversationId: string): Model {
    Model(map[], None,
          map[AgreementRef := [TextModel(Plain(PEPPOL_AP_PROVIDER))],
              Service := [Model(map[TypeName := CENBII_PROCID_UBL], Some(Plain(a.process)), map[])],
              Action := [TextModel(Plain(BUSDOX_DOCID_QNS + "::" + Print(a.documentType)))],
              ConversationId := [TextModel(Plain(conversationId))]])
  }

  function PropertyModels(a: BuilderArgs): seq<Model> {
    [PropertyModel(ORIGINAL_SENDER, a.sender, Some(ISO6523_ACTOR_ID)),
     PropertyModel(FINAL_RECIPIENT, a.recipient, Some(ISO6523_ACTOR_ID))]
  }

  function UserMessageModel(i: BuildInput): Model {
    Model(map[], None,
          map[MessageInfo := [MessageInfoModel(i.now, i.ids.messageId, Plain(""))],
              PartyInfo := [Model(map[], None, map[From := [PartyModel(i.local.identity, INITIATOR)],
                                                   To := [PartyModel(i.remote.identity, RESPONDER)]])],
              CollaborationInfo := [CollaborationModel(i.arguments, i.ids.conversationId)],
              MessageProperties := [Model(map[], None, map[Property := PropertyModels(i.arguments)])],
              PayloadInfo := [Model(map[], None, ListOf(PartInfo, PartInfoModels(i.ids.attachments)))]])
  }

  function UserMessagingModel(i: BuildInput): Model {
    Model(map[WsuId := i.ids.messagingId, MustUnderstand := "true"], None, Only(UserMessage, UserMessageModel(i)))
  }

  function UserMessagingElement(i: BuildInput): Element {
    Dump(MESSAGING, Messaging, UserMessagingModel(i))
  }

  // ---------------------------------------------------------------- the security header

  function TokenKeyInfo(token: Model): Model {
    Model(map[], None, Only(SecurityTokenReference, token))
  }

  function DataReferenceModels(attachments: seq<(string, string)>): (r: seq<Model>)
    ensures |r| == |attachments|
    ensures forall i :: 0 <= i < |r| ==> r[i] == Model(map[Uri := "#" + attachments[i].1], None, map[])
  {
    seq(|attachments|, i requires 0 <= i < |attachments| => Model(map[Uri := "#" + attachments[i].1], None, map[]))
  }

  /** The empty Type, MimeType and Encoding that the builder passes write nothing. */
  function EncryptedKeyModel(i: BuildInput): Model {
    Model(map[PlainId := i.ids.encryptedKeyId], None,
          map[EncryptionMethod := [Model(map[Algorithm := RSA_OAEP], None,
                                         map[DigestMethod := [AlgorithmModel(SHA256)],
                                             Mgf := [AlgorithmModel(MGF1_SHA256)]])],
              KeyInfo := [TokenKeyInfo(Model(map[], None,
                                             Only(TokenReference,
                                                  TokenReferenceModel("#" + i.ids.encryptedKeyTokenId))))],
              CipherData := [Model(map[], None,
                                   Only(CipherValue, TextModel(WrappedKeyText(i.remote.certificate.key, i.session))))],
              ReferenceList := [Model(map[], None, ListOf(DataReference, DataReferenceModels(i.ids.attachments)))]])
  }

  function EncryptedDataModel(encryptedKeyId: string, attachmentId: string, encryptedDataId: string): Model {
    Model(map[PlainId := encryptedDataId, MimeType := GZIP, DsigType := ATTACHMENT_CONTENT_ONLY], None,
          map[EncryptionMethod := [AlgorithmModel(AES128_GCM)],
              KeyInfo := [TokenKeyInfo(Model(map[TokenType := ENCRYPTED_KEY_TOKEN_TYPE], None,
                                             Only(TokenReference,
                                                  Model(map[Uri := "#" + encryptedKeyId], None, map[]))))],
              CipherData := [Model(map[], None,
                                   Only(CipherReference,
                                        Model(map[Uri := "cid:" + attachmentId], None,
                                              Only(CipherTransforms,
                                                   Model(map[], None,
                                                         Only(Transform,
                                                              AlgorithmModel(ATTACHMENT_CIPHERTEXT_TRANSFORM)))))))]])
  }

  function EncryptedDataModels(encryptedKeyId: string, attachments: seq<(string, string)>): (r: seq<Model>)
    ensures |r| == |attachments|
    ensures forall i :: 0 <= i < |r| ==> r[i] == EncryptedDataModel(encryptedKeyId, attachments[i].0, attachments[i].1)
  {
    seq(|attachments|, i requires 0 <= i < |attachments| =>
          EncryptedDataModel(encryptedKeyId, attachments[i].0, attachments[i].1))
  }

  /** get_encrypted_data: one element for each entry of the attachment map. */
  method BuildEncryptedData(ids: References) returns (data: seq<Model>)
    ensures data == EncryptedDataModels(ids.encryptedKeyId, ids.attachments)
  {
    data := [];
    for i := 0 to |ids.attachments|
      invariant |data| == i
      invariant forall k :: 0 <= k < i ==>
                  data[k] == EncryptedDataModel(ids.encryptedKeyId, ids.attachments[k].0, ids.attachments[k].1)
    {
      data := data + [EncryptedDataModel(ids.encryptedKeyId, ids.attachments[i].0, ids.attachments[i].1)];
    }
  }

  /** The messaging block, the body, and the one payload that was compressed. */
  function UserReferences(i: BuildInput, attachmentId: string, compressed: Bytes): seq<Model> {
    HeaderReferences(i.ids, UserMessagingModel(i)) + [AttachmentReference(attachmentId, compressed)]
  }

  function UserSecurityModel(i: BuildInput, references: seq<Model>): Model {
    Model(map[MustUnderstand := "true"], None,
          map[BinarySecurityToken := [TokenModel(i.ids.encryptedKeyTokenId, i.remote.certificate),
                                      TokenModel(i.ids.signatureTokenId, i.local.credentials.certificate)],
              EncryptedKey := [EncryptedKeyModel(i)],
              Signature := [SignatureOf(i.ids, i.local.credentials.key, references)]]
          + ListOf(EncryptedData, EncryptedDataModels(i.ids.encryptedKeyId, i.ids.attachments)))
  }

  // ---------------------------------------------------------------- build_message

  /** The failures before anything is assigned: a payload that is not XML, a document type without a
      root element name, a remote key that is not RSA. */
  predicate Buildable(i: BuildInput) {
    ParseXml(i.payload).Some? && RootName(i.arguments.documentType).Some? && i.remote.certificate.rsa
  }

  /** The serialised business document that is delivered. */
  function Delivered(i: BuildInput): Bytes
    requires Buildable(i)
  {
    Xml(BusinessDocumentElement(i.arguments, RootName(i.arguments.documentType).value, i.now,
                                ParseXml(i.payload).value))
  }

  /** The attachment id whose payload is built: the first of the map. */
  function AttachmentIdOf(i: BuildInput): string
    requires i.ids.attachments != []
  {
    i.ids.attachments[0].0
  }

  function UserEnvelope(i: BuildInput): Model
    requires Buildable(i) && i.ids.attachments != []
  {
    EnvelopeModel(
      UserSecurityModel(i, UserReferences(i, AttachmentIdOf(i), Gzip(Delivered(i)))),
      UserMessagingModel(i),
      i.ids)
  }

  /** build_message, once the attachment map has an entry. */
  function BuiltMessage(i: BuildInput): Message
    requires Buildable(i) && i.ids.attachments != []
  {
    var id := AttachmentIdOf(i);
    NO_FIELDS.(
      messageId := Plain(i.ids.messageId),
      messagingId := i.ids.messagingId,
      envelope := Some(UserEnvelope(i)),
      attachments := Attachments(Some(id), map[id := Sealed(i.session, Gzip(Delivered(i)))]),
      decrypted := map[id := Delivered(i)],
      sender := Some(Plain(i.arguments.sender)),
      recipient := Some(Plain(i.arguments.recipient)),
      documentType := Some(Plain(Print(i.arguments.documentType))),
      documentScheme := Some(Plain(BUSDOX_DOCID_QNS)),
      process := Some(Plain(i.arguments.process)))
  }

  /** get_request_data: what goes over the wire. */
  function WireOf(m: Message): Wire
    requires m.envelope.Some?
  {
    Wire(Xml(Dump(ENVELOPE, Envelope, m.envelope.value)), m.attachments)
  }

  /** encrypted_data_attachment_mapping fills an empty attachment map with one fresh entry. */
  function WithAttachment(ids: References, entry: (string, string)): References {
    if ids.attachments == [] then ids.(attachments := [entry]) else ids
  }
}
