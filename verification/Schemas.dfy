/** The model classes of the SOAP, ebMS, WS-Security, XML Signature, XML Encryption and SBDH
    vocabularies, as schemas: aliased fields in declaration order. */
module Schemas {
  import opened Terms
  import opened XmlMapping

  const REQUIRED_TEXT := TextField(true, End)
  const OPTIONAL_TEXT := TextField(false, End)
  const REQUIRED_ALGORITHM := AttributeField(Algorithm, true, End)

  // XML Signature (as4/models/dsig)

  const TRANSFORM := AttributeField(Algorithm, false, End)
  const TRANSFORMS := ChildField(Transform, AnyNumber, TRANSFORM, End)

  const REFERENCE :=
    ChildField(Transforms, One, TRANSFORMS,
    ChildField(DigestMethod, One, REQUIRED_ALGORITHM,
    ChildField(DigestValue, One, REQUIRED_TEXT,
    AttributeField(PlainId, false,
    AttributeField(Uri, false,
    AttributeField(DsigType, false, End))))))

  const SIGNED_INFO :=
    ChildField(CanonicalizationMethod, One, REQUIRED_ALGORITHM,
    ChildField(SignatureMethod, One, REQUIRED_ALGORITHM,
    ChildField(Reference, AnyNumber, REFERENCE,
    AttributeField(PlainId, false, End))))

  const TOKEN_REFERENCE := AttributeField(Uri, false, AttributeField(ValueType, false, End))

  const SECURITY_TOKEN_REFERENCE :=
    AttributeField(WsuId, false,
    AttributeField(Usage, false,
    ChildField(TokenReference, One, TOKEN_REFERENCE,
    AttributeField(TokenType, false, End))))

  const KEY_INFO :=
    AttributeField(PlainId, false,
    ChildField(SecurityTokenReference, AnyNumber, SECURITY_TOKEN_REFERENCE, End))

  const SIGNATURE :=
    ChildField(SignedInfo, One, SIGNED_INFO,
    ChildField(SignatureValue, One, TextField(false, AttributeField(PlainId, false, End)),
    ChildField(KeyInfo, One, KEY_INFO,
    AttributeField(PlainId, false, End))))

  // XML Encryption (as4/models/xenc)

  const ENCRYPTION_METHOD :=
    AttributeField(Algorithm, true,
    ChildField(DigestMethod, AtMostOne, REQUIRED_ALGORITHM,
    ChildField(Mgf, AtMostOne, REQUIRED_ALGORITHM, End)))

  const CIPHER_REFERENCE :=
    ChildField(CipherTransforms, One, TRANSFORMS,
    AttributeField(Uri, false, End))

  const CIPHER_DATA :=
    ChildField(CipherValue, AtMostOne, OPTIONAL_TEXT,
    ChildField(CipherReference, AtMostOne, CIPHER_REFERENCE, End))

  const ENCRYPTED_TYPE :=
    ChildField(EncryptionMethod, One, ENCRYPTION_METHOD,
    ChildField(KeyInfo, One, KEY_INFO,
    ChildField(CipherData, One, CIPHER_DATA,
    AttributeField(PlainId, false,
    AttributeField(DsigType, false,
    AttributeField(MimeType, false,
    AttributeField(Encoding, false, End)))))))

  const REFERENCE_LIST := ChildField(DataReference, AnyNumber, AttributeField(Uri, false, End), End)

  const ENCRYPTED_KEY :=
    ChildField(EncryptionMethod, One, ENCRYPTION_METHOD,
    ChildField(KeyInfo, One, KEY_INFO,
    ChildField(CipherData, One, CIPHER_DATA,
    AttributeField(PlainId, false,
    AttributeField(DsigType, false,
    AttributeField(MimeType, false,
    AttributeField(Encoding, false,
    ChildField(ReferenceList, One, REFERENCE_LIST, End))))))))

  // WS-Security (as4/models/wsse)

  const BINARY_SECURITY_TOKEN :=
    AttributeField(EncodingType, true,
    AttributeField(ValueType, true,
    AttributeField(WsuId, true,
    TextField(true, End))))

  const SECURITY :=
    ChildField(BinarySecurityToken, AtLeastOne, BINARY_SECURITY_TOKEN,
    ChildField(EncryptedKey, AtMostOne, ENCRYPTED_KEY,
    ChildField(EncryptedData, AnyNumber, ENCRYPTED_TYPE,
    ChildField(Signature, AtMostOne, SIGNATURE,
    AttributeField(MustUnderstand, false, End)))))

  // ebMS user messages (as4/models/ebms)

  const MESSAGE_INFO :=
    ChildField(Timestamp, One, REQUIRED_TEXT,
    ChildField(MessageId, One, REQUIRED_TEXT,
    ChildField(RefToMessageId, AtMostOne, REQUIRED_TEXT, End)))

  const PARTY :=
    ChildField(PartyId, One, TextField(false, AttributeField(TypeName, false, End)),
    ChildField(Role, One, REQUIRED_TEXT, End))

  const PARTY_INFO := ChildField(From, One, PARTY, ChildField(To, One, PARTY, End))

  const COLLABORATION_INFO :=
    ChildField(AgreementRef, AtMostOne, TextField(true,
                                                  AttributeField(TypeName, false, AttributeField(Pmode, false, End))),
    ChildField(Service, One, TextField(true, AttributeField(TypeName, false, End)),
    ChildField(Action, One, REQUIRED_TEXT,
    ChildField(ConversationId, One, REQUIRED_TEXT, End))))

  const PROPERTY :=
    AttributeField(TypeName, false,
    TextField(true,
    AttributeField(Name, true, End)))

  const PROPERTIES := ChildField(Property, AnyNumber, PROPERTY, End)

  const DESCRIPTION := TextField(true, AttributeField(Lang, false, End))

  const PART_INFO :=
    ChildField(PartSchema, AnyNumber, AttributeField(Location, true,
                                                     AttributeField(Version, false,
                                                                    AttributeField(Namespace, false, End))),
    ChildField(Description, AnyNumber, DESCRIPTION,
    ChildField(PartProperties, One, PROPERTIES,
    AttributeField(Href, false, End))))

  const PAYLOAD_INFO := ChildField(PartInfo, AnyNumber, PART_INFO, End)

  const USER_MESSAGE :=
    ChildField(MessageInfo, One, MESSAGE_INFO,
    ChildField(PartyInfo, One, PARTY_INFO,
    ChildField(CollaborationInfo, One, COLLABORATION_INFO,
    ChildField(MessageProperties, AtMostOne, PROPERTIES,
    ChildField(PayloadInfo, AtMostOne, PAYLOAD_INFO,
    AttributeField(Mpc, false, End))))))

  // ebMS signal messages

  const NON_REPUDIATION_INFORMATION :=
    ChildField(MessagePartNRInformation, AnyNumber, ChildField(Reference, AtLeastOne, REFERENCE, End), End)

  const RECEIPT :=
    ChildField(NonRepudiationInformation, AtMostOne, NON_REPUDIATION_INFORMATION, End)

  const ERROR :=
    ChildField(Description, AtMostOne, DESCRIPTION,
    ChildField(ErrorDetail, AtMostOne, REQUIRED_TEXT,
    AttributeField(Category, false,
    AttributeField(RefToMessageInError, false,
    AttributeField(ErrorCode, true,
    AttributeField(Origin, false,
    AttributeField(Severity, true,
    AttributeField(ShortDescription, false, End))))))))

  const SIGNAL_MESSAGE :=
    ChildField(MessageInfo, One, MESSAGE_INFO,
    ChildField(PullRequest, AtMostOne, AttributeField(Mpc, false, End),
    ChildField(Receipt, AtMostOne, RECEIPT,
    ChildField(Error, AnyNumber, ERROR, End))))

  const MESSAGING :=
    ChildField(SignalMessage, AnyNumber, SIGNAL_MESSAGE,
    ChildField(UserMessage, AnyNumber, USER_MESSAGE,
    AttributeField(WsuId, false,
    AttributeField(MustUnderstand, false, End))))

  // SOAP (as4/models/soap)

  const BODY := AttributeField(WsuId, false, End)

  const HEADER := ChildField(Security, One, SECURITY, ChildField(Messaging, One, MESSAGING, End))

  const ENVELOPE := ChildField(Header, One, HEADER, ChildField(Body, One, BODY, End))

  // Standard Business Document Header (as4/models/unece/sbdh.py)

  const PARTICIPANT :=
    ChildField(Identifier, One, AttributeField(Authority, false, TextField(true, End)), End)

  const DOCUMENT_IDENTIFICATION :=
    ChildField(Standard, One, REQUIRED_TEXT,
    ChildField(TypeVersion, One, REQUIRED_TEXT,
    ChildField(InstanceIdentifier, One, REQUIRED_TEXT,
    ChildField(SbdhType, One, REQUIRED_TEXT,
    ChildField(CreationDateAndTime, One, REQUIRED_TEXT, End)))))

  const SCOPE :=
    ChildField(SbdhType, One, REQUIRED_TEXT,
    ChildField(InstanceIdentifier, One, REQUIRED_TEXT,
    ChildField(Identifier, AtMostOne, REQUIRED_TEXT, End)))

  const BUSINESS_DOCUMENT_HEADER :=
    ChildField(HeaderVersion, One, REQUIRED_TEXT,
    ChildField(Sender, One, PARTICIPANT,
    ChildField(Receiver, One, PARTICIPANT,
    ChildField(DocumentIdentification, One, DOCUMENT_IDENTIFICATION,
    ChildField(BusinessScope, One, ChildField(Scope, AtLeastOne, SCOPE, End), End)))))

  const BUSINESS_DOCUMENT :=
    ChildField(StandardBusinessDocumentHeader, One, BUSINESS_DOCUMENT_HEADER, End)

  // No class declares an alias twice.

  lemma DistinctWith(seen: set<Tag>, f: Schema, after: set<Tag>)
    requires f.ChildField? && f.tag !in seen && after == seen + {f.tag}
    requires DistinctAliases(f.schema) && DistinctFields(f.rest, after)
    ensures DistinctFields(f, seen)
  {
  }

  lemma ReferenceAliases()
    ensures DistinctAliases(REFERENCE)
  {
  }

  lemma SignedInfoAliases()
    ensures DistinctAliases(SIGNED_INFO)
  {
  }

  lemma SignatureAliases()
    ensures DistinctAliases(SIGNATURE)
  {
  }

  lemma EncryptedKeyAliases()
    ensures DistinctAliases(ENCRYPTED_KEY)
  {
  }

  lemma EncryptedDataAliases()
    ensures DistinctAliases(ENCRYPTED_TYPE)
  {
  }

  lemma SecurityAliases()
    ensures DistinctAliases(SECURITY)
  {
    SignatureAliases();
    EncryptedKeyAliases();
    EncryptedDataAliases();
    SecurityClass(BINARY_SECURITY_TOKEN, ENCRYPTED_KEY, ENCRYPTED_TYPE, SIGNATURE);
  }

  lemma SecurityClass(token: Schema, key: Schema, data: Schema, signature: Schema)
    requires DistinctAliases(token) && DistinctAliases(key) && DistinctAliases(data) && DistinctAliases(signature)
    ensures DistinctAliases(
              ChildField(BinarySecurityToken, AtLeastOne, token,
              ChildField(EncryptedKey, AtMostOne, key,
              ChildField(EncryptedData, AnyNumber, data,
              ChildField(Signature, AtMostOne, signature,
              AttributeField(MustUnderstand, false, End))))))
  {
    var s4 := ChildField(Signature, AtMostOne, signature, AttributeField(MustUnderstand, false, End));
    var s3 := ChildField(EncryptedData, AnyNumber, data, s4);
    var s2 := ChildField(EncryptedKey, AtMostOne, key, s3);
    var s1 := ChildField(BinarySecurityToken, AtLeastOne, token, s2);
    DistinctWith({BinarySecurityToken, EncryptedKey, EncryptedData}, s4,
                 {BinarySecurityToken, EncryptedKey, EncryptedData, Signature});
    DistinctWith({BinarySecurityToken, EncryptedKey}, s3, {BinarySecurityToken, EncryptedKey, EncryptedData});
    DistinctWith({BinarySecurityToken}, s2, {BinarySecurityToken, EncryptedKey});
    DistinctWith({}, s1, {BinarySecurityToken});
  }

  lemma SignalMessageAliases()
    ensures DistinctAliases(SIGNAL_MESSAGE)
  {
  }

  lemma PartyInfoAliases()
    ensures DistinctAliases(PARTY_INFO)
  {
  }

  lemma CollaborationInfoAliases()
    ensures DistinctAliases(COLLABORATION_INFO)
  {
  }

  lemma PayloadInfoAliases()
    ensures DistinctAliases(PAYLOAD_INFO)
  {
  }

  lemma UserMessageAliases()
    ensures DistinctAliases(USER_MESSAGE)
  {
    PartyInfoAliases();
    CollaborationInfoAliases();
    PayloadInfoAliases();
    UserMessageClass(MESSAGE_INFO, PARTY_INFO, COLLABORATION_INFO, PROPERTIES, PAYLOAD_INFO);
  }

  lemma UserMessageClass(info: Schema, party: Schema, collaboration: Schema, properties: Schema, payload: Schema)
    requires DistinctAliases(info) && DistinctAliases(party) && DistinctAliases(collaboration)
    requires DistinctAliases(properties) && DistinctAliases(payload)
    ensures DistinctAliases(
              ChildField(MessageInfo, One, info,
              ChildField(PartyInfo, One, party,
              ChildField(CollaborationInfo, One, collaboration,
              ChildField(MessageProperties, AtMostOne, properties,
              ChildField(PayloadInfo, AtMostOne, payload,
              AttributeField(Mpc, false, End)))))))
  {
    var s5 := ChildField(PayloadInfo, AtMostOne, payload, AttributeField(Mpc, false, End));
    var s4 := ChildField(MessageProperties, AtMostOne, properties, s5);
    var s3 := ChildField(CollaborationInfo, One, collaboration, s4);
    var s2 := ChildField(PartyInfo, One, party, s3);
    var s1 := ChildField(MessageInfo, One, info, s2);
    DistinctWith({MessageInfo, PartyInfo, CollaborationInfo, MessageProperties}, s5,
                 {MessageInfo, PartyInfo, CollaborationInfo, MessageProperties, PayloadInfo});
    DistinctWith({MessageInfo, PartyInfo, CollaborationInfo}, s4,
                 {MessageInfo, PartyInfo, CollaborationInfo, MessageProperties});
    DistinctWith({MessageInfo, PartyInfo}, s3, {MessageInfo, PartyInfo, CollaborationInfo});
    DistinctWith({MessageInfo}, s2, {MessageInfo, PartyInfo});
    DistinctWith({}, s1, {MessageInfo});
  }

  lemma MessagingAliases()
    ensures DistinctAliases(MESSAGING)
  {
    SignalMessageAliases();
    UserMessageAliases();
    TwoFieldClass(SignalMessage, AnyNumber, SIGNAL_MESSAGE, UserMessage, AnyNumber, USER_MESSAGE,
                  AttributeField(WsuId, false, AttributeField(MustUnderstand, false, End)));
  }

  lemma TwoFieldClass(t: Tag, a: Multiplicity, first: Schema, u: Tag, b: Multiplicity, second: Schema, rest: Schema)
    requires t != u && DistinctAliases(first) && DistinctAliases(second) && DistinctFields(rest, {t, u})
    ensures DistinctAliases(ChildField(t, a, first, ChildField(u, b, second, rest)))
  {
    var s2 := ChildField(u, b, second, rest);
    DistinctWith({t}, s2, {t, u});
    DistinctWith({}, ChildField(t, a, first, s2), {t});
  }

  lemma EnvelopeAliases()
    ensures DistinctAliases(ENVELOPE)
  {
    MessagingAliases();
    SecurityAliases();
    TwoFieldClass(Security, One, SECURITY, Messaging, One, MESSAGING, End);
    TwoFieldClass(Header, One, HEADER, Body, One, BODY, End);
  }

  lemma BusinessDocumentAliases()
    ensures DistinctAliases(BUSINESS_DOCUMENT)
  {
  }
}
