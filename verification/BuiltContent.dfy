/** What a built message says, with every value written out (as4/profiles/peppol/message.py, as4/const.py). */
module BuiltContent {
  import opened Terms
  import opened XmlMapping
  import opened Schemas
  import opened Dsig
  import opened Messages
  import opened DocumentIdentifier
  import opened Peppol
  import opened Receipts
  import opened Builder

  /** The only child with this tag has this text and these attributes, and nothing inside. */
  predicate Says(m: Model, t: Tag, text: Text, attributes: map<AttributeName, string>) {
    Children(m, t) == [Model(attributes, Some(text), map[])]
  }

  predicate Has(m: Model, tags: set<Tag>, attributes: map<AttributeName, string>) {
    m.children.Keys == tags && m.attributes == attributes && m.text.None?
  }

  // ---------------------------------------------------------------- the header block

  ghost predicate SaysParty(info: Model, direction: Tag, p: PartyIdentity, role: string) {
    && |Children(info, direction)| == 1
    && Has(Child(info, direction), {PartyId, Role}, map[])
    && Says(Child(info, direction), PartyId, p.partyId,
            if p.partyType.Some? then map[TypeName := p.partyType.value] else map[])
    && Says(Child(info, direction), Role, Plain(role), map[])
  }

  ghost predicate SaysCollaboration(info: Model, a: BuilderArgs, conversationId: string) {
    var d := a.documentType;
    && Has(info, {AgreementRef, Service, Action, ConversationId}, map[])
    && Says(info, AgreementRef, Plain("urn:fdc:peppol.eu:2017:agreements:tia:ap_provider"), map[])
    && Says(info, Service, Plain(a.process), map[TypeName := "cenbii-procid-ubl"])
    && Says(info, Action,
            Plain("busdox-docid-qns" + "::" + (d.syntaxSpecificId + "##" + d.customizationId + "::" + d.version)),
            map[])
    && Says(info, ConversationId, Plain(conversationId), map[])
  }

  ghost predicate SaysProperties(properties: Model, a: BuilderArgs) {
    && Has(properties, {Property}, map[])
    && Children(properties, Property)
       == [Model(map[Name := "originalSender", TypeName := "iso6523-actorid-upis"], Some(Plain(a.sender)), map[]),
           Model(map[Name := "finalRecipient", TypeName := "iso6523-actorid-upis"], Some(Plain(a.recipient)), map[])]
  }

  ghost predicate SaysPart(part: Model, attachmentId: string) {
    && Has(part, {PartProperties}, map[Href := "cid:" + attachmentId])
    && |Children(part, PartProperties)| == 1
    && Has(Child(part, PartProperties), {Property}, map[])
    && Children(Child(part, PartProperties), Property)
       == [Model(map[Name := "MimeType"], Some(Plain("application/xml")), map[]),
           Model(map[Name := "CompressionType"], Some(Plain("application/gzip")), map[])]
  }

  lemma PartySays(info: Model, direction: Tag, p: PartyIdentity, role: string)
    requires Children(info, direction) == [PartyModel(p, role)]
    ensures SaysParty(info, direction, p, role)
  {
  }

  lemma CollaborationSays(a: BuilderArgs, conversationId: string)
    ensures SaysCollaboration(CollaborationModel(a, conversationId), a, conversationId)
  {
  }

  lemma PropertySays(name: string, value: string, propertyType: Option<string>)
    ensures PropertyModel(name, value, propertyType)
         == Model(if propertyType.Some? then map[Name := name, TypeName := propertyType.value] else map[Name := name],
                  Some(Plain(value)), map[])
  {
    if propertyType.Some? {
      assert map[Name := name] + map[TypeName := propertyType.value]
          == map[Name := name, TypeName := propertyType.value];
    } else {
      assert map[Name := name] + map[] == map[Name := name];
    }
  }

  lemma PropertiesSay(a: BuilderArgs)
    ensures SaysProperties(Model(map[], None, map[Property := PropertyModels(a)]), a)
  {
    PropertySays(ORIGINAL_SENDER, a.sender, Some(ISO6523_ACTOR_ID));
    PropertySays(FINAL_RECIPIENT, a.recipient, Some(ISO6523_ACTOR_ID));
  }

  lemma PartSays(attachmentId: string)
    ensures SaysPart(PartInfoModel(attachmentId), attachmentId)
  {
    PropertySays("MimeType", "application/xml", None);
    PropertySays(COMPRESSION_TYPE, GZIP, None);
  }

  /** The whole user message: who, to whom, under which agreement, in which conversation, about which
      document and process, with which attachments. */
  ghost predicate SaysUserMessage(message: Model, i: BuildInput) {
    && Has(message, {MessageInfo, PartyInfo, CollaborationInfo, MessageProperties, PayloadInfo}, map[])
    && (forall t | t in message.children :: |Children(message, t)| == 1)
    && Has(Child(message, MessageInfo), {Timestamp, MessageId}, map[])
    && Says(Child(message, MessageInfo), Timestamp, i.now, map[])
    && Says(Child(message, MessageInfo), MessageId, Plain(i.ids.messageId), map[])
    && Has(Child(message, PartyInfo), {From, To}, map[])
    && SaysParty(Child(message, PartyInfo), From, i.local.identity,
                 "http://docs.oasis-open.org/ebxml-msg/ebms/v3.0/ns/core/200704/initiator")
    && SaysParty(Child(message, PartyInfo), To, i.remote.identity,
                 "http://docs.oasis-open.org/ebxml-msg/ebms/v3.0/ns/core/200704/responder")
    && SaysCollaboration(Child(message, CollaborationInfo), i.arguments, i.ids.conversationId)
    && SaysProperties(Child(message, MessageProperties), i.arguments)
    && var parts := Children(Child(message, PayloadInfo), PartInfo);
       |parts| == |i.ids.attachments| && forall k | 0 <= k < |parts| :: SaysPart(parts[k], i.ids.attachments[k].0)
  }

  lemma MessageFields(i: BuildInput)
    ensures var m := UserMessageModel(i);
            && Has(m, {MessageInfo, PartyInfo, CollaborationInfo, MessageProperties, PayloadInfo}, map[])
            && Children(m, MessageInfo) == [MessageInfoModel(i.now, i.ids.messageId, Plain(""))]
            && Children(m, PartyInfo) == [Model(map[], None, map[From := [PartyModel(i.local.identity, INITIATOR)],
                                                                 To := [PartyModel(i.remote.identity, RESPONDER)]])]
            && Children(m, CollaborationInfo) == [CollaborationModel(i.arguments, i.ids.conversationId)]
            && Children(m, MessageProperties) == [Model(map[], None, map[Property := PropertyModels(i.arguments)])]
            && Children(m, PayloadInfo) == [Model(map[], None, ListOf(PartInfo, PartInfoModels(i.ids.attachments)))]
  {
  }

  lemma InfoSays(now: Text, messageId: string)
    ensures var info := MessageInfoModel(now, messageId, Plain(""));
            Has(info, {Timestamp, MessageId}, map[]) && Says(info, Timestamp, now, map[])
            && Says(info, MessageId, Plain(messageId), map[])
  {
  }

  lemma UserMessageSays(i: BuildInput)
    ensures SaysUserMessage(UserMessageModel(i), i)
  {
    var m := UserMessageModel(i);
    MessageFields(i);
    InfoSays(i.now, i.ids.messageId);
    PartySays(Child(m, PartyInfo), From, i.local.identity, INITIATOR);
    PartySays(Child(m, PartyInfo), To, i.remote.identity, RESPONDER);
    CollaborationSays(i.arguments, i.ids.conversationId);
    PropertiesSay(i.arguments);
    forall k | 0 <= k < |i.ids.attachments|
      ensures SaysPart(PartInfoModels(i.ids.attachments)[k], i.ids.attachments[k].0)
    {
      PartSays(i.ids.attachments[k].0);
    }
  }

  /** The header block of a built message. */
  ghost predicate SaysMessaging(messaging: Model, i: BuildInput) {
    && Has(messaging, {UserMessage}, map[WsuId := i.ids.messagingId, MustUnderstand := "true"])
    && |Children(messaging, UserMessage)| == 1
    && SaysUserMessage(Child(messaging, UserMessage), i)
  }

  lemma MessagingSays(i: BuildInput)
    ensures SaysMessaging(UserMessagingModel(i), i)
  {
    UserMessageSays(i);
  }

  // ---------------------------------------------------------------- the routing header

  ghost predicate SaysParticipant(header: Model, direction: Tag, value: string) {
    && |Children(header, direction)| == 1
    && Has(Child(header, direction), {Identifier}, map[])
    && Says(Child(header, direction), Identifier, Plain(value), map[Authority := "iso6523-actorid-upis"])
  }

  ghost predicate SaysScope(scope: Model, scopeType: string, instance: string, identifier: Option<string>) {
    && Has(scope, if identifier.Some? then {SbdhType, InstanceIdentifier, Identifier}
           else {SbdhType, InstanceIdentifier},
           map[])
    && Says(scope, SbdhType, Plain(scopeType), map[])
    && Says(scope, InstanceIdentifier, Plain(instance), map[])
    && (identifier.Some? ==> Says(scope, Identifier, Plain(identifier.value), map[]))
  }

  /** The routing header names the participants, the document and the three scopes. */
  ghost predicate SaysRouting(header: Model, a: BuilderArgs, rootName: string, now: Text) {
    && Has(header, {HeaderVersion, Sender, Receiver, DocumentIdentification, BusinessScope}, map[])
    && (forall t | t in header.children :: |Children(header, t)| == 1)
    && Says(header, HeaderVersion, Plain("1.0"), map[])
    && SaysParticipant(header, Sender, a.sender) && SaysParticipant(header, Receiver, a.recipient)
    && SaysDocument(Child(header, DocumentIdentification), a, rootName, now)
    && Has(Child(header, BusinessScope), {Scope}, map[])
    && SaysScopes(Children(Child(header, BusinessScope), Scope), a)
  }

  ghost predicate SaysDocument(document: Model, a: BuilderArgs, rootName: string, now: Text) {
    && Has(document, {Standard, TypeVersion, InstanceIdentifier, SbdhType, CreationDateAndTime}, map[])
    && Says(document, Standard, Plain(RootNamespace(a.documentType)), map[])
    && Says(document, TypeVersion, Plain(a.documentType.version), map[])
    && Says(document, InstanceIdentifier, Plain(a.instanceId), map[])
    && Says(document, SbdhType, Plain(rootName), map[])
    && Says(document, CreationDateAndTime, now, map[])
  }

  lemma DocumentSays(a: BuilderArgs, rootName: string, now: Text)
    ensures SaysDocument(DocumentIdentificationModel(a, rootName, now), a, rootName, now)
  {
  }

  ghost predicate SaysScopes(scopes: seq<Model>, a: BuilderArgs) {
    var d := a.documentType;
    && |scopes| == 3
    && SaysScope(scopes[0], "DOCUMENTID", d.syntaxSpecificId + "##" + d.customizationId + "::" + d.version,
                 Some("busdox-docid-qns"))
    && SaysScope(scopes[1], "PROCESSID", a.process, Some("cenbii-procid-ubl"))
    && SaysScope(scopes[2], "COUNTRY_C1", a.country, None)
  }

  lemma ScopesSay(a: BuilderArgs)
    ensures SaysScopes(ScopeModels(a), a)
  {
    ScopeSays(DOCUMENTID, Print(a.documentType), Some(BUSDOX_DOCID_QNS));
    ScopeSays(PROCESSID, a.process, Some(CENBII_PROCID_UBL));
    ScopeSays(COUNTRY_C1, a.country, None);
  }

  lemma ParticipantSays(header: Model, direction: Tag, value: string)
    requires Children(header, direction) == [ParticipantModel(value)]
    ensures SaysParticipant(header, direction, value)
  {
  }

  lemma ScopeSays(scopeType: string, instance: string, identifier: Option<string>)
    ensures SaysScope(ScopeModel(scopeType, instance, identifier), scopeType, instance, identifier)
  {
  }

  lemma HeaderFields(a: BuilderArgs, rootName: string, now: Text)
    ensures var header := BusinessHeaderModel(a, rootName, now);
            && Has(header, {HeaderVersion, Sender, Receiver, DocumentIdentification, BusinessScope}, map[])
            && Says(header, HeaderVersion, Plain("1.0"), map[])
            && Children(header, Sender) == [ParticipantModel(a.sender)]
            && Children(header, Receiver) == [ParticipantModel(a.recipient)]
            && Children(header, DocumentIdentification) == [DocumentIdentificationModel(a, rootName, now)]
            && Children(header, BusinessScope) == [Model(map[], None, map[Scope := ScopeModels(a)])]
  {
  }

  lemma RoutingSays(a: BuilderArgs, rootName: string, now: Text)
    ensures SaysRouting(BusinessHeaderModel(a, rootName, now), a, rootName, now)
  {
    var header := BusinessHeaderModel(a, rootName, now);
    HeaderFields(a, rootName, now);
    ParticipantSays(header, Sender, a.sender);
    ParticipantSays(header, Receiver, a.recipient);
    DocumentSays(a, rootName, now);
    ScopesSay(a);
  }

  // ---------------------------------------------------------------- the security header

  predicate SaysAlgorithm(m: Model, t: Tag, algorithm: string) {
    Children(m, t) == [Model(map[Algorithm := algorithm], None, map[])]
  }

  predicate SaysToken(token: Model, id: string, certificate: Certificate) {
    token == Model(
      map[EncodingType :=
            "http://docs.oasis-open.org/wss/2004/01/oasis-200401-wss-soap-message-security-1.0#Base64Binary",
          ValueType := "http://docs.oasis-open.org/wss/2004/01/oasis-200401-wss-x509-token-profile-1.0#X509v3",
          WsuId := id],
      Some(TokenText(certificate)), map[])
  }

  /** A KeyInfo with one security token reference, which points to a token. */
  ghost predicate SaysKeyInfo(m: Model, own: map<AttributeName, string>, outer: map<AttributeName, string>,
                              inner: map<AttributeName, string>)
  {
    && |Children(m, KeyInfo)| == 1 && Has(Child(m, KeyInfo), {SecurityTokenReference}, own)
    && |Children(Child(m, KeyInfo), SecurityTokenReference)| == 1
    && Has(Child(Child(m, KeyInfo), SecurityTokenReference), {TokenReference}, outer)
    && Children(Child(Child(m, KeyInfo), SecurityTokenReference), TokenReference) == [Model(inner, None, map[])]
  }

  /** The session key is wrapped for the recipient's certificate, which stands in the header. */
  ghost predicate SaysEncryptedKey(key: Model, i: BuildInput) {
    var encryption, list := Child(key, EncryptionMethod), Child(key, ReferenceList);
    && Has(key, {EncryptionMethod, KeyInfo, CipherData, ReferenceList}, map[PlainId := i.ids.encryptedKeyId])
    && |Children(key, EncryptionMethod)| == 1
    && Has(encryption, {DigestMethod, Mgf}, map[Algorithm := "http://www.w3.org/2009/xmlenc11#rsa-oaep"])
    && SaysAlgorithm(encryption, DigestMethod, "http://www.w3.org/2001/04/xmlenc#sha256")
    && SaysAlgorithm(encryption, Mgf, "http://www.w3.org/2009/xmlenc11#mgf1sha256")
    && SaysKeyInfo(key, map[], map[],
                   map[Uri := "#" + i.ids.encryptedKeyTokenId,
                       ValueType :=
                         "http://docs.oasis-open.org/wss/2004/01/oasis-200401-wss-x509-token-profile-1.0#X509v3"])
    && |Children(key, CipherData)| == 1 && Has(Child(key, CipherData), {CipherValue}, map[])
    && Says(Child(key, CipherData), CipherValue, WrappedKeyText(i.remote.certificate.key, i.session), map[])
    && |Children(key, ReferenceList)| == 1
    && |Children(list, DataReference)| == |i.ids.attachments|
    && forall k | 0 <= k < |i.ids.attachments| ::
         Children(list, DataReference)[k] == Model(map[Uri := "#" + i.ids.attachments[k].1], None, map[])
  }

  /** Each attachment is encrypted under the session key by AES-128-GCM. */
  ghost predicate SaysEncryptedData(data: Model, encryptedKeyId: string, attachmentId: string, id: string) {
    var reference := Child(Child(data, CipherData), CipherReference);
    && Has(data, {EncryptionMethod, KeyInfo, CipherData},
           map[PlainId := id, MimeType := "application/gzip",
               DsigType := "http://docs.oasis-open.org/wss/oasis-wss-SwAProfile-1.1#Attachment-Content-Only"])
    && SaysAlgorithm(data, EncryptionMethod, "http://www.w3.org/2009/xmlenc11#aes128-gcm")
    && SaysKeyInfo(data, map[],
                   map[TokenType := "http://docs.oasis-open.org/wss/oasis-wss-soap-message-security-1.1#EncryptedKey"],
                   map[Uri := "#" + encryptedKeyId])
    && |Children(data, CipherData)| == 1 && Has(Child(data, CipherData), {CipherReference}, map[])
    && |Children(Child(data, CipherData), CipherReference)| == 1
    && Has(reference, {CipherTransforms}, map[Uri := "cid:" + attachmentId])
    && |Children(reference, CipherTransforms)| == 1
    && Has(Child(reference, CipherTransforms), {Transform}, map[])
    && SaysAlgorithm(Child(reference, CipherTransforms), Transform,
                  "http://docs.oasis-open.org/wss/oasis-wss-SwAProfile-1.1#Attachment-Ciphertext-Transform")
  }

  /** One signed digest. */
  ghost predicate SaysReference(r: Model, uri: string, transform: string, content: Bytes) {
    && Has(r, {Transforms, DigestMethod, DigestValue}, map[Uri := uri])
    && |Children(r, Transforms)| == 1 && Has(Child(r, Transforms), {Transform}, map[])
    && SaysAlgorithm(Child(r, Transforms), Transform, transform)
    && SaysAlgorithm(r, DigestMethod, "http://www.w3.org/2001/04/xmlenc#sha256")
    && Says(r, DigestValue, DigestText("http://www.w3.org/2001/04/xmlenc#sha256", content), map[])
  }

  /** The signature is made over the references with RSA-SHA-256, and names the token of its certificate. */
  ghost predicate SaysSignature(signature: Model, ids: References, key: Key, references: seq<Model>) {
    var info := Child(signature, SignedInfo);
    && Has(signature, {SignedInfo, SignatureValue, KeyInfo}, map[PlainId := ids.signatureId])
    && |Children(signature, SignedInfo)| == 1
    && Has(info, {CanonicalizationMethod, SignatureMethod, Reference}, map[])
    && SaysAlgorithm(info, CanonicalizationMethod, "http://www.w3.org/2001/10/xml-exc-c14n#")
    && SaysAlgorithm(info, SignatureMethod, "http://www.w3.org/2001/04/xmldsig-more#rsa-sha256")
    && Children(info, Reference) == references
    && Says(signature, SignatureValue,
            SignatureText(key, "http://www.w3.org/2001/04/xmldsig-more#rsa-sha256",
                          Xml(Dump(SIGNED_INFO, SignedInfo, info))), map[])
    && SaysKeyInfo(signature, map[PlainId := ids.keyInfoId], map[WsuId := ids.tokenReferenceId],
                   map[Uri := "#" + ids.signatureTokenId,
                       ValueType :=
                         "http://docs.oasis-open.org/wss/2004/01/oasis-200401-wss-x509-token-profile-1.0#X509v3"])
  }

  lemma EncryptedKeySays(i: BuildInput)
    ensures SaysEncryptedKey(EncryptedKeyModel(i), i)
  {
  }

  lemma EncryptedDataSays(encryptedKeyId: string, attachmentId: string, id: string)
    ensures SaysEncryptedData(EncryptedDataModel(encryptedKeyId, attachmentId, id), encryptedKeyId, attachmentId, id)
  {
  }

  lemma ReferenceSays(uri: string, transform: string, content: Bytes)
    ensures SaysReference(ReferenceModel(uri, transform, content), uri, transform, content)
  {
  }

  lemma SignatureSays(ids: References, key: Key, references: seq<Model>)
    ensures SaysSignature(SignatureOf(ids, key, references), ids, key, references)
  {
  }

  // ---------------------------------------------------------------- the whole message

  ghost predicate SaysEnvelope(envelope: Model, bodyId: string) {
    && Has(envelope, {Header, Body}, map[])
    && |Children(envelope, Header)| == 1 && Has(Child(envelope, Header), {Security, Messaging}, map[])
    && |Children(Child(envelope, Header), Security)| == 1 && |Children(Child(envelope, Header), Messaging)| == 1
    && Children(envelope, Body) == [Model(map[WsuId := bodyId], None, map[])]
  }

  /** The three digests are over the header block, the body and the compressed document. */
  ghost predicate SaysReferences(references: seq<Model>, i: BuildInput)
    requires Buildable(i) && i.ids.attachments != []
  {
    && |references| == 3
    && SaysHeaderReferences(references[..2], i.ids, UserMessagingModel(i))
    && SaysReference(references[2], "cid:" + i.ids.attachments[0].0,
                     "http://docs.oasis-open.org/wss/oasis-wss-SwAProfile-1.1#Attachment-Content-Signature-Transform",
                     Gzip(Delivered(i)))
  }

  /** The recipient's certificate for the session key, and the sender's for the signature. */
  predicate SaysTokens(tokens: seq<Model>, i: BuildInput) {
    && |tokens| == 2
    && SaysToken(tokens[0], i.ids.encryptedKeyTokenId, i.remote.certificate)
    && SaysToken(tokens[1], i.ids.signatureTokenId, i.local.credentials.certificate)
  }

  ghost predicate SaysAllData(data: seq<Model>, i: BuildInput) {
    && |data| == |i.ids.attachments|
    && forall k | 0 <= k < |data| ::
         SaysEncryptedData(data[k], i.ids.encryptedKeyId, i.ids.attachments[k].0, i.ids.attachments[k].1)
  }

  ghost predicate SaysSigned(signature: Model, i: BuildInput)
    requires Buildable(i) && i.ids.attachments != []
  {
    var references := Children(Child(signature, SignedInfo), Reference);
    SaysSignature(signature, i.ids, i.local.credentials.key, references) && SaysReferences(references, i)
  }

  ghost predicate SaysSecurity(security: Model, i: BuildInput)
    requires Buildable(i) && i.ids.attachments != []
  {
    && Has(security, {BinarySecurityToken, EncryptedKey, Signature, EncryptedData}, map[MustUnderstand := "true"])
    && SaysTokens(Children(security, BinarySecurityToken), i)
    && |Children(security, EncryptedKey)| == 1 && SaysEncryptedKey(Child(security, EncryptedKey), i)
    && SaysAllData(Children(security, EncryptedData), i)
    && |Children(security, Signature)| == 1 && SaysSigned(Child(security, Signature), i)
  }

  lemma FourLists(m: Model, tokens: seq<Model>, key: Model, signature: Model, data: seq<Model>)
    requires data != []
    requires m == Model(map[MustUnderstand := "true"], None,
                        map[BinarySecurityToken := tokens, EncryptedKey := [key], Signature := [signature]]
                        + ListOf(EncryptedData, data))
    ensures Has(m, {BinarySecurityToken, EncryptedKey, Signature, EncryptedData}, map[MustUnderstand := "true"])
    ensures Children(m, BinarySecurityToken) == tokens && Children(m, EncryptedData) == data
    ensures Children(m, EncryptedKey) == [key] && Children(m, Signature) == [signature]
  {
  }

  lemma SecurityFields(i: BuildInput, references: seq<Model>)
    requires i.ids.attachments != []
    ensures var m := UserSecurityModel(i, references);
            && Has(m, {BinarySecurityToken, EncryptedKey, Signature, EncryptedData}, map[MustUnderstand := "true"])
            && Children(m, BinarySecurityToken) == [TokenModel(i.ids.encryptedKeyTokenId, i.remote.certificate),
                                                    TokenModel(i.ids.signatureTokenId, i.local.credentials.certificate)]
            && Children(m, EncryptedKey) == [EncryptedKeyModel(i)]
            && Children(m, Signature) == [SignatureOf(i.ids, i.local.credentials.key, references)]
            && Children(m, EncryptedData) == EncryptedDataModels(i.ids.encryptedKeyId, i.ids.attachments)
  {
    FourLists(UserSecurityModel(i, references),
              [TokenModel(i.ids.encryptedKeyTokenId, i.remote.certificate),
               TokenModel(i.ids.signatureTokenId, i.local.credentials.certificate)],
              EncryptedKeyModel(i), SignatureOf(i.ids, i.local.credentials.key, references),
              EncryptedDataModels(i.ids.encryptedKeyId, i.ids.attachments));
  }

  lemma ReferencesSay(i: BuildInput)
    requires Buildable(i) && i.ids.attachments != []
    ensures SaysReferences(UserReferences(i, AttachmentIdOf(i), Gzip(Delivered(i))), i)
  {
    HeaderReferencesSay(i.ids, UserMessagingModel(i));
    ReferenceSays("cid:" + AttachmentIdOf(i), ATTACHMENT_CONTENT_SIGNATURE, Gzip(Delivered(i)));
    assert UserReferences(i, AttachmentIdOf(i), Gzip(Delivered(i)))[..2]
        == HeaderReferences(i.ids, UserMessagingModel(i));
  }

  lemma TokensSay(tokens: seq<Model>, i: BuildInput)
    requires tokens == [TokenModel(i.ids.encryptedKeyTokenId, i.remote.certificate),
                        TokenModel(i.ids.signatureTokenId, i.local.credentials.certificate)]
    ensures SaysTokens(tokens, i)
  {
  }

  lemma DataSay(data: seq<Model>, i: BuildInput)
    requires data == EncryptedDataModels(i.ids.encryptedKeyId, i.ids.attachments)
    ensures SaysAllData(data, i)
  {
    forall k | 0 <= k < |i.ids.attachments|
      ensures SaysEncryptedData(data[k], i.ids.encryptedKeyId, i.ids.attachments[k].0, i.ids.attachments[k].1)
    {
      EncryptedDataSays(i.ids.encryptedKeyId, i.ids.attachments[k].0, i.ids.attachments[k].1);
    }
  }

  lemma SignedSays(i: BuildInput, references: seq<Model>)
    requires Buildable(i) && i.ids.attachments != [] && SaysReferences(references, i)
    ensures SaysSigned(SignatureOf(i.ids, i.local.credentials.key, references), i)
  {
    SignatureSays(i.ids, i.local.credentials.key, references);
  }

  lemma SecurityPieces(security: Model, i: BuildInput, key: Model, signature: Model)
    requires Buildable(i) && i.ids.attachments != []
    requires Has(security, {BinarySecurityToken, EncryptedKey, Signature, EncryptedData}, map[MustUnderstand := "true"])
    requires SaysTokens(Children(security, BinarySecurityToken), i) && SaysAllData(Children(security, EncryptedData), i)
    requires Children(security, EncryptedKey) == [key] && SaysEncryptedKey(key, i)
    requires Children(security, Signature) == [signature] && SaysSigned(signature, i)
    ensures SaysSecurity(security, i)
  {
  }

  lemma SecuritySays(i: BuildInput)
    requires Buildable(i) && i.ids.attachments != []
    ensures SaysSecurity(UserSecurityModel(i, UserReferences(i, AttachmentIdOf(i), Gzip(Delivered(i)))), i)
  {
    var references := UserReferences(i, AttachmentIdOf(i), Gzip(Delivered(i)));
    SecurityFields(i, references);
    EncryptedKeySays(i);
    ReferencesSay(i);
    SignedSays(i, references);
    TokensSay(Children(UserSecurityModel(i, references), BinarySecurityToken), i);
    DataSay(Children(UserSecurityModel(i, references), EncryptedData), i);
    SecurityPieces(UserSecurityModel(i, references), i, EncryptedKeyModel(i),
                   SignatureOf(i.ids, i.local.credentials.key, references));
  }

  /** The delivered document is the routing header, followed by the payload. */
  lemma DeliveredSays(i: BuildInput)
    requires Buildable(i)
    ensures Delivered(i).Xml? && Delivered(i).root.tag.StandardBusinessDocument?
    ensures Delivered(i).root.attributes == [] && Delivered(i).root.text == Plain("")
    ensures |Delivered(i).root.children| == 2
    ensures Delivered(i).root.children[1] == i.payload.root
    ensures exists header ::
              && SaysRouting(header, i.arguments, RootName(i.arguments.documentType).value, i.now)
              && Delivered(i).root.children[0] == Dump(BUSINESS_DOCUMENT_HEADER, StandardBusinessDocumentHeader, header)
  {
    var rootName := RootName(i.arguments.documentType).value;
    RoutingSays(i.arguments, rootName, i.now);
    DocumentIs(i.arguments, rootName, i.now);
  }

  lemma DocumentIs(a: BuilderArgs, rootName: string, now: Text)
    ensures Dump(BUSINESS_DOCUMENT, StandardBusinessDocument, BusinessDocumentModel(a, rootName, now))
         == Element(StandardBusinessDocument, [], Plain(""),
                    [Dump(BUSINESS_DOCUMENT_HEADER, StandardBusinessDocumentHeader,
                          BusinessHeaderModel(a, rootName, now))])
  {
    var header := BusinessHeaderModel(a, rootName, now);
    assert Children(BusinessDocumentModel(a, rootName, now), StandardBusinessDocumentHeader) == [header];
    OnlyChildIsDumped(BUSINESS_DOCUMENT, StandardBusinessDocument, BusinessDocumentModel(a, rootName, now), header);
  }

  lemma OnlyChildIsDumped(s: Schema, tag: Tag, m: Model, child: Model)
    requires s.ChildField? && s.rest.End? && Children(m, s.tag) == [child]
    ensures Dump(s, tag, m) == Element(tag, [], Plain(""), [Dump(s.schema, s.tag, child)])
  {
    assert DumpAttributes(s.rest, m) == [] && DumpChildren(s.rest, m) == [] && !HasText(s.rest);
    assert [child][1..] == [];
    assert DumpAll(s.schema, s.tag, [child]) == [Dump(s.schema, s.tag, child)];
  }

  /** Everything that a built message says: its header block, its security header, its body, and one attachment,
      the delivered document compressed and then sealed under the session key. */
  lemma BuiltMessageSays(i: BuildInput)
    requires Buildable(i) && i.ids.attachments != []
    ensures var m := BuiltMessage(i);
            && m.envelope.Some? && SaysEnvelope(m.envelope.value, i.ids.bodyId)
            && SaysMessaging(MessagingOf(m.envelope.value), i)
            && SaysSecurity(SecurityOf(m.envelope.value), i)
            && m.attachments == Attachments(Some(i.ids.attachments[0].0),
                                            map[i.ids.attachments[0].0 := Sealed(i.session, Gzip(Delivered(i)))])
            && m.messageId == Plain(i.ids.messageId) && m.messagingId == i.ids.messagingId
            && m.error.None? && m.signer.None? && m.addressedTo.None?
  {
    MessagingSays(i);
    SecuritySays(i);
    EnvelopeSays(UserSecurityModel(i, UserReferences(i, AttachmentIdOf(i), Gzip(Delivered(i)))), UserMessagingModel(i),
                 i.ids);
  }

  lemma EnvelopeSays(security: Model, messaging: Model, ids: References)
    ensures var envelope := EnvelopeModel(security, messaging, ids);
            && SaysEnvelope(envelope, ids.bodyId)
            && SecurityOf(envelope) == security && MessagingOf(envelope) == messaging
  {
  }

  // ---------------------------------------------------------------- signals

  ghost predicate SaysHeaderReferences(references: seq<Model>, ids: References, messaging: Model) {
    && |references| == 2
    && SaysReference(references[0], "#" + ids.messagingId, "http://www.w3.org/2001/10/xml-exc-c14n#",
                     Xml(Dump(MESSAGING, Messaging, messaging)))
    && SaysReference(references[1], "#" + ids.bodyId, "http://www.w3.org/2001/10/xml-exc-c14n#",
                     Xml(Dump(BODY, Body, Model(map[WsuId := ids.bodyId], None, map[]))))
  }

  lemma HeaderReferencesSay(ids: References, messaging: Model)
    ensures SaysHeaderReferences(HeaderReferences(ids, messaging), ids, messaging)
  {
    ReferenceSays("#" + ids.messagingId, EXCLUSIVE_C14N, Xml(Dump(MESSAGING, Messaging, messaging)));
    ReferenceSays("#" + ids.bodyId, EXCLUSIVE_C14N, Xml(Dump(BODY, Body, BodyModel(ids))));
  }

  /** The envelope of a built signal: one token, and a signature over its header block and its body. */
  ghost predicate SaysSignalEnvelope(envelope: Model, own: Credentials, ids: References) {
    var security := SecurityOf(envelope);
    var references := Children(Child(Child(security, Signature), SignedInfo), Reference);
    && SaysEnvelope(envelope, ids.bodyId)
    && Has(security, {BinarySecurityToken, Signature}, map[MustUnderstand := "true"])
    && |Children(security, BinarySecurityToken)| == 1
    && SaysToken(Children(security, BinarySecurityToken)[0], ids.signatureTokenId, own.certificate)
    && |Children(security, Signature)| == 1
    && SaysSignature(Child(security, Signature), ids, own.key, references)
    && SaysHeaderReferences(references, ids, MessagingOf(envelope))
  }

  lemma SignalPieces(envelope: Model, own: Credentials, ids: References, messaging: Model, security: Model,
                     references: seq<Model>)
    requires SaysEnvelope(envelope, ids.bodyId) && SecurityOf(envelope) == security
    requires MessagingOf(envelope) == messaging
    requires security == Model(map[MustUnderstand := "true"], None,
                               map[BinarySecurityToken := [TokenModel(ids.signatureTokenId, own.certificate)],
                                   Signature := [SignatureOf(ids, own.key, references)]])
    requires references == HeaderReferences(ids, messaging)
    ensures SaysSignalEnvelope(envelope, own, ids)
  {
    SignatureSays(ids, own.key, references);
    HeaderReferencesSay(ids, messaging);
  }

  lemma SignalEnvelopeSays(m: Message, own: Credentials, ids: References, now: Text)
    ensures SaysSignalEnvelope(SignalEnvelope(m, own, ids, now), own, ids)
    ensures MessagingOf(SignalEnvelope(m, own, ids, now)) == SignalMessagingModel(m, ids, now)
  {
    var messaging, references := SignalMessagingModel(m, ids, now), SignalReferences(m, ids, now);
    var security := Model(map[MustUnderstand := "true"], None,
                          map[BinarySecurityToken := [TokenModel(ids.signatureTokenId, own.certificate)],
                              Signature := [SignatureOf(ids, own.key, references)]]);
    EnvelopeSays(security, messaging, ids);
    SignalPieces(SignalEnvelope(m, own, ids, now), own, ids, messaging, security, references);
  }
}
