/** A built security header, as its receiver reads it: the session key, the ciphertext and the signer
    (as4/profiles/peppol/message.py, as4/core/message.py). */
module HonestSecurity {
  import opened Terms
  import opened XmlMapping
  import opened Schemas
  import opened Dsig
  import opened Messages
  import opened Receipts
  import opened Builder
  import opened Envelopes
  import opened Completeness
  import opened Construction
  import opened Readable

  // ---------------------------------------------------------------- completeness

  lemma AlgorithmIsComplete(algorithm: string)
    ensures Complete(REQUIRED_ALGORITHM, AlgorithmModel(algorithm)) <==> algorithm != ""
  {
  }

  /** The class of encryption methods: an algorithm, and two optional algorithm children. */
  lemma EncryptionMethodIsComplete(f: Schema, m: Model)
    requires f == ENCRYPTION_METHOD && AttributeOf(m, Algorithm).GetOr("") != ""
    requires Children(m, DigestMethod) == [] || Children(m, DigestMethod) == [AlgorithmModel(SHA256)]
    requires Children(m, Mgf) == [] || Children(m, Mgf) == [AlgorithmModel(MGF1_SHA256)]
    ensures Complete(f, m)
  {
    assert SHA256 != "" && MGF1_SHA256 != "";
    AlgorithmIsComplete(SHA256);
    AlgorithmIsComplete(MGF1_SHA256);
    OptionalIsComplete(f.rest.rest, m);
    OptionalIsComplete(f.rest, m);
  }

  lemma OptionalIsComplete(f: Schema, m: Model)
    requires f.ChildField? && f.multiplicity.AtMostOne? && Complete(f.rest, m)
    requires |Children(m, f.tag)| <= 1 && (Children(m, f.tag) != [] ==> Complete(f.schema, Child(m, f.tag)))
    ensures Complete(f, m)
  {
    if Children(m, f.tag) == [] {
      CompleteAbsent(f, m);
    } else {
      CompleteChild(f, m, Child(m, f.tag));
    }
  }

  /** The three children that EncryptedKey and EncryptedData share, before their optional attributes. */
  predicate EncryptedShape(f: Schema) {
    && f.ChildField? && f.tag == EncryptionMethod && f.schema == ENCRYPTION_METHOD
    && f.rest.ChildField? && f.rest.tag == KeyInfo && f.rest.schema == KEY_INFO
    && f.rest.rest.ChildField? && f.rest.rest.tag == CipherData && f.rest.rest.schema == CIPHER_DATA
    && f.rest.rest.rest.AttributeField? && !f.rest.rest.rest.required
    && f.rest.rest.rest.rest.AttributeField? && !f.rest.rest.rest.rest.required
    && f.rest.rest.rest.rest.rest.AttributeField? && !f.rest.rest.rest.rest.rest.required
    && f.rest.rest.rest.rest.rest.rest.AttributeField? && !f.rest.rest.rest.rest.rest.rest.required
  }

  function AfterAttributes(f: Schema): Schema
    requires EncryptedShape(f)
  {
    f.rest.rest.rest.rest.rest.rest.rest
  }

  lemma EncryptedHaveShape()
    ensures EncryptedShape(ENCRYPTED_KEY) && EncryptedShape(ENCRYPTED_TYPE)
    ensures AfterAttributes(ENCRYPTED_KEY) == ChildField(ReferenceList, One, REFERENCE_LIST, End)
    ensures AfterAttributes(ENCRYPTED_TYPE) == End
  {
  }

  lemma EncryptedIsComplete(f: Schema, m: Model, encryption: Model, keyInfo: Model, cipher: Model)
    requires EncryptedShape(f) && Complete(AfterAttributes(f), m)
    requires Children(m, EncryptionMethod) == [encryption] && Complete(ENCRYPTION_METHOD, encryption)
    requires Children(m, KeyInfo) == [keyInfo] && Complete(KEY_INFO, keyInfo)
    requires Children(m, CipherData) == [cipher] && Complete(CIPHER_DATA, cipher)
    requires f.multiplicity.One? && f.rest.multiplicity.One? && f.rest.rest.multiplicity.One?
    ensures Complete(f, m)
  {
    var attributes := f.rest.rest.rest;
    assert Complete(attributes.rest.rest.rest, m);
    assert Complete(attributes.rest.rest, m);
    assert Complete(attributes, m);
    CompleteChild(f.rest.rest, m, cipher);
    CompleteChild(f.rest, m, keyInfo);
    CompleteChild(f, m, encryption);
  }

  function WrappedCipher(i: BuildInput): Model {
    Model(map[], None, Only(CipherValue, TextModel(WrappedKeyText(i.remote.certificate.key, i.session))))
  }

  function DataReferenceList(i: BuildInput): Model {
    Model(map[], None, ListOf(DataReference, DataReferenceModels(i.ids.attachments)))
  }

  function KeyEncryption(): Model {
    Model(map[Algorithm := RSA_OAEP], None,
          map[DigestMethod := [AlgorithmModel(SHA256)], Mgf := [AlgorithmModel(MGF1_SHA256)]])
  }

  function KeyTokenReference(i: BuildInput): Model {
    Model(map[], None, Only(TokenReference, TokenReferenceModel("#" + i.ids.encryptedKeyTokenId)))
  }

  lemma EncryptedKeyParts(i: BuildInput)
    ensures var m := EncryptedKeyModel(i);
            && Children(m, EncryptionMethod) == [KeyEncryption()]
            && Children(m, KeyInfo) == [TokenKeyInfo(KeyTokenReference(i))]
            && Children(m, CipherData) == [WrappedCipher(i)]
            && Children(m, ReferenceList) == [DataReferenceList(i)]
  {
  }

  lemma WrappedCipherIsComplete(i: BuildInput)
    ensures Complete(CIPHER_DATA, WrappedCipher(i))
  {
    CompleteChild(CIPHER_DATA, WrappedCipher(i), TextModel(WrappedKeyText(i.remote.certificate.key, i.session)));
    CompleteAbsent(CIPHER_DATA.rest, WrappedCipher(i));
  }

  lemma {:induction false} DataReferencesAreComplete(references: seq<Model>)
    ensures AllComplete(REFERENCE_LIST.schema, references)
  {
    if references != [] {
      DataReferencesAreComplete(references[1..]);
    }
  }

  lemma EncryptedKeyIsComplete(i: BuildInput)
    ensures Complete(ENCRYPTED_KEY, EncryptedKeyModel(i))
  {
    var m := EncryptedKeyModel(i);
    EncryptedKeyParts(i);
    EncryptedHaveShape();
    assert RSA_OAEP != "";
    EncryptionMethodIsComplete(ENCRYPTION_METHOD, KeyEncryption());
    KeyInfoIsComplete(TokenKeyInfo(KeyTokenReference(i)), KeyTokenReference(i),
                      TokenReferenceModel("#" + i.ids.encryptedKeyTokenId));
    WrappedCipherIsComplete(i);
    DataReferencesAreComplete(Children(DataReferenceList(i), DataReference));
    CompleteList(REFERENCE_LIST, DataReferenceList(i));
    CompleteChild(AfterAttributes(ENCRYPTED_KEY), m, DataReferenceList(i));
    EncryptedIsComplete(ENCRYPTED_KEY, m, KeyEncryption(), TokenKeyInfo(KeyTokenReference(i)), WrappedCipher(i));
  }

  function AttachmentCipherReference(attachmentId: string): Model {
    Model(map[Uri := "cid:" + attachmentId], None,
          Only(CipherTransforms, Model(map[], None, Only(Transform, AlgorithmModel(ATTACHMENT_CIPHERTEXT_TRANSFORM)))))
  }

  function AttachmentCipher(attachmentId: string): Model {
    Model(map[], None, Only(CipherReference, AttachmentCipherReference(attachmentId)))
  }

  function DataTokenReference(encryptedKeyId: string): Model {
    Model(map[TokenType := ENCRYPTED_KEY_TOKEN_TYPE], None,
          Only(TokenReference, Model(map[Uri := "#" + encryptedKeyId], None, map[])))
  }

  lemma EncryptedDataParts(encryptedKeyId: string, attachmentId: string, id: string)
    ensures var m := EncryptedDataModel(encryptedKeyId, attachmentId, id);
            && Children(m, EncryptionMethod) == [AlgorithmModel(AES128_GCM)]
            && Children(m, KeyInfo) == [TokenKeyInfo(DataTokenReference(encryptedKeyId))]
            && Children(m, CipherData) == [AttachmentCipher(attachmentId)]
            && AttributeOf(m, PlainId) == Some(id)
  {
  }

  lemma AttachmentCipherIsComplete(attachmentId: string)
    ensures Complete(CIPHER_DATA, AttachmentCipher(attachmentId))
  {
    var r := AttachmentCipherReference(attachmentId);
    var transforms := Model(map[], None, Only(Transform, AlgorithmModel(ATTACHMENT_CIPHERTEXT_TRANSFORM)));
    TransformsAreComplete(Children(transforms, Transform));
    CompleteList(TRANSFORMS, transforms);
    CompleteChild(CIPHER_REFERENCE, r, transforms);
    CompleteChild(CIPHER_DATA.rest, AttachmentCipher(attachmentId), r);
    CompleteAbsent(CIPHER_DATA, AttachmentCipher(attachmentId));
  }

  lemma EncryptedDataIsComplete(encryptedKeyId: string, attachmentId: string, id: string)
    ensures Complete(ENCRYPTED_TYPE, EncryptedDataModel(encryptedKeyId, attachmentId, id))
  {
    var m := EncryptedDataModel(encryptedKeyId, attachmentId, id);
    EncryptedDataParts(encryptedKeyId, attachmentId, id);
    EncryptedHaveShape();
    assert AES128_GCM != "";
    EncryptionMethodIsComplete(ENCRYPTION_METHOD, AlgorithmModel(AES128_GCM));
    KeyInfoIsComplete(TokenKeyInfo(DataTokenReference(encryptedKeyId)), DataTokenReference(encryptedKeyId),
                      Model(map[Uri := "#" + encryptedKeyId], None, map[]));
    AttachmentCipherIsComplete(attachmentId);
    EncryptedIsComplete(ENCRYPTED_TYPE, m, AlgorithmModel(AES128_GCM), TokenKeyInfo(DataTokenReference(encryptedKeyId)),
                        AttachmentCipher(attachmentId));
  }

  /** The identifiers a security header needs. */
  predicate HonestIds(ids: References) {
    && ids.signatureTokenId != "" && ids.encryptedKeyTokenId != "" && ids.signatureTokenId != ids.encryptedKeyTokenId
    && ids.messagingId != "" && ids.bodyId != ""
    && |ids.attachments| == 1 && ids.attachments[0].1 != ""
  }

  lemma UserSecurityParts(i: BuildInput, references: seq<Model>)
    requires |i.ids.attachments| == 1
    ensures var m := UserSecurityModel(i, references);
            && Children(m, BinarySecurityToken) == [TokenModel(i.ids.encryptedKeyTokenId, i.remote.certificate),
                                                    TokenModel(i.ids.signatureTokenId, i.local.credentials.certificate)]
            && Children(m, EncryptedKey) == [EncryptedKeyModel(i)]
            && Children(m, EncryptedData)
               == [EncryptedDataModel(i.ids.encryptedKeyId, i.ids.attachments[0].0, i.ids.attachments[0].1)]
            && Children(m, Signature) == [SignatureOf(i.ids, i.local.credentials.key, references)]
  {
    var m := UserSecurityModel(i, references);
    assert EncryptedDataModels(i.ids.encryptedKeyId, i.ids.attachments)
        == [EncryptedDataModel(i.ids.encryptedKeyId, i.ids.attachments[0].0, i.ids.attachments[0].1)];
    assert Children(m, EncryptedData) == EncryptedDataModels(i.ids.encryptedKeyId, i.ids.attachments);
  }

  lemma FullSecurityIsComplete(f: Schema, m: Model, token: Model, token': Model, key: Model, data: Model,
                               signature: Model)
    requires f.ChildField? && f.tag == BinarySecurityToken && f.schema == BINARY_SECURITY_TOKEN
    requires f.multiplicity.AtLeastOne?
    requires f.rest.ChildField? && f.rest.tag == EncryptedKey && f.rest.schema == ENCRYPTED_KEY
    requires f.rest.rest.ChildField? && f.rest.rest.tag == EncryptedData && f.rest.rest.schema == ENCRYPTED_TYPE
    requires f.rest.rest.rest.ChildField? && f.rest.rest.rest.tag == Signature && f.rest.rest.rest.schema == SIGNATURE
    requires Complete(f.rest.rest.rest.rest, m)
    requires Children(m, BinarySecurityToken) == [token, token']
    requires Complete(BINARY_SECURITY_TOKEN, token) && Complete(BINARY_SECURITY_TOKEN, token')
    requires Children(m, EncryptedKey) == [key] && Complete(ENCRYPTED_KEY, key)
    requires Children(m, EncryptedData) == [data] && Complete(ENCRYPTED_TYPE, data)
    requires Children(m, Signature) == [signature] && Complete(SIGNATURE, signature)
    ensures Complete(f, m)
  {
    CompleteChild(f.rest.rest.rest, m, signature);
    CompleteChild(f.rest.rest, m, data);
    CompleteChild(f.rest, m, key);
    CompletePair(f, m, token, token');
  }

  lemma CompletePair(f: Schema, m: Model, first: Model, second: Model)
    requires f.ChildField? && f.multiplicity.AtLeastOne? && Children(m, f.tag) == [first, second]
    requires Complete(f.schema, first) && Complete(f.schema, second) && Complete(f.rest, m)
    ensures Complete(f, m)
  {
    AllCompleteIsEach(f.schema, [first, second]);
  }

  lemma SecurityHasShape()
    ensures var f := SECURITY;
            && f.ChildField? && f.tag == BinarySecurityToken && f.schema == BINARY_SECURITY_TOKEN
            && f.multiplicity.AtLeastOne?
            && f.rest.ChildField? && f.rest.tag == EncryptedKey && f.rest.schema == ENCRYPTED_KEY
            && f.rest.multiplicity.AtMostOne?
            && f.rest.rest.ChildField? && f.rest.rest.tag == EncryptedData && f.rest.rest.schema == ENCRYPTED_TYPE
            && f.rest.rest.rest.ChildField? && f.rest.rest.rest.tag == Signature && f.rest.rest.rest.schema == SIGNATURE
            && f.rest.rest.rest.rest == AttributeField(MustUnderstand, false, End)
  {
  }

  lemma UserReferencesAreComplete(i: BuildInput, content: Bytes)
    requires |i.ids.attachments| == 1
    ensures AllComplete(REFERENCE, UserReferences(i, i.ids.attachments[0].0, content))
  {
    var references := UserReferences(i, i.ids.attachments[0].0, content);
    HeaderReferencesAreComplete(i.ids, UserMessagingModel(i));
    AllCompleteIsEach(REFERENCE, HeaderReferences(i.ids, UserMessagingModel(i)));
    BuiltReferenceIsComplete("cid:" + i.ids.attachments[0].0, ATTACHMENT_CONTENT_SIGNATURE, content);
    AllCompleteIsEach(REFERENCE, references);
  }

  /** A built security header survives its dump. */
  lemma UserSecurityIsComplete(i: BuildInput, references: seq<Model>)
    requires HonestIds(i.ids) && AllComplete(REFERENCE, references)
    ensures Complete(SECURITY, UserSecurityModel(i, references))
  {
    var attachment := i.ids.attachments[0];
    UserSecurityParts(i, references);
    TokenIsComplete(i.ids.encryptedKeyTokenId, i.remote.certificate);
    TokenIsComplete(i.ids.signatureTokenId, i.local.credentials.certificate);
    EncryptedKeyIsComplete(i);
    EncryptedDataIsComplete(i.ids.encryptedKeyId, attachment.0, attachment.1);
    SignatureIsComplete(i.ids, i.local.credentials.key, references);
    SecurityHasShape();
    FullSecurityIsComplete(SECURITY, UserSecurityModel(i, references),
                           TokenModel(i.ids.encryptedKeyTokenId, i.remote.certificate),
                           TokenModel(i.ids.signatureTokenId, i.local.credentials.certificate), EncryptedKeyModel(i),
                           EncryptedDataModel(i.ids.encryptedKeyId, attachment.0, attachment.1),
                           SignatureOf(i.ids, i.local.credentials.key, references));
  }

  // ---------------------------------------------------------------- decrypting

  lemma EncryptedKeyNests()
    ensures Nests(ENCRYPTED_KEY, EncryptionMethod, ENCRYPTION_METHOD) && Nests(ENCRYPTED_KEY, CipherData, CIPHER_DATA)
    ensures Nests(ENCRYPTED_KEY, ReferenceList, REFERENCE_LIST)
    ensures Nests(CIPHER_DATA, CipherValue, OPTIONAL_TEXT) && Nests(CIPHER_DATA, CipherReference, CIPHER_REFERENCE)
    ensures HasAttribute(ENCRYPTION_METHOD, Algorithm) && HasAttribute(CIPHER_REFERENCE, Uri)
  {
    FieldHere(ENCRYPTED_KEY);
    FieldLater(ENCRYPTED_KEY, CipherData);
    FieldLater(ENCRYPTED_KEY.rest, CipherData);
    FieldHere(ENCRYPTED_KEY.rest.rest);
    ReferenceListNests();
    FieldHere(CIPHER_DATA);
    FieldLater(CIPHER_DATA, CipherReference);
    FieldHere(CIPHER_DATA.rest);
    AttributeHere(ENCRYPTION_METHOD, Algorithm);
    AttributeLater(CIPHER_REFERENCE, Uri);
    AttributeHere(CIPHER_REFERENCE.rest, Uri);
  }

  lemma ReferenceListNests()
    ensures Nests(ENCRYPTED_KEY, ReferenceList, REFERENCE_LIST)
  {
    EncryptedHaveShape();
    var f := ENCRYPTED_KEY;
    FieldLater(f, ReferenceList);
    FieldLater(f.rest, ReferenceList);
    FieldLater(f.rest.rest, ReferenceList);
    FieldLater(f.rest.rest.rest, ReferenceList);
    FieldLater(f.rest.rest.rest.rest, ReferenceList);
    FieldLater(f.rest.rest.rest.rest.rest, ReferenceList);
    FieldLater(f.rest.rest.rest.rest.rest.rest, ReferenceList);
    FieldHere(AfterAttributes(f));
  }

  lemma EncryptedDataNests()
    ensures Nests(ENCRYPTED_TYPE, EncryptionMethod, ENCRYPTION_METHOD) && Nests(ENCRYPTED_TYPE, CipherData, CIPHER_DATA)
    ensures HasAttribute(ENCRYPTED_TYPE, PlainId)
  {
    FieldHere(ENCRYPTED_TYPE);
    FieldLater(ENCRYPTED_TYPE, CipherData);
    FieldLater(ENCRYPTED_TYPE.rest, CipherData);
    FieldHere(ENCRYPTED_TYPE.rest.rest);
    AttributeLater(ENCRYPTED_TYPE, PlainId);
    AttributeLater(ENCRYPTED_TYPE.rest, PlainId);
    AttributeLater(ENCRYPTED_TYPE.rest.rest, PlainId);
    AttributeHere(ENCRYPTED_TYPE.rest.rest.rest, PlainId);
  }

  /** The encrypted key, read back: the wrapped key, its algorithm and the data references. */
  lemma EncryptedKeyReadsBack(i: BuildInput)
    ensures var read := Norm(ENCRYPTED_KEY, EncryptedKeyModel(i));
            && AttributeOf(Child(read, EncryptionMethod), Algorithm) == Some(RSA_OAEP)
            && Child(Child(read, CipherData), CipherValue).text
               == Some(WrappedKeyText(i.remote.certificate.key, i.session))
            && Children(Child(read, ReferenceList), DataReference)
               == NormAll(REFERENCE_LIST.schema, DataReferenceModels(i.ids.attachments))
  {
    EncryptedKeyMethodReadsBack(i);
    EncryptedKeyValueReadsBack(i);
    EncryptedKeyListReadsBack(i);
  }

  lemma EncryptedKeyMethodReadsBack(i: BuildInput)
    ensures AttributeOf(Child(Norm(ENCRYPTED_KEY, EncryptedKeyModel(i)), EncryptionMethod), Algorithm) == Some(RSA_OAEP)
  {
    EncryptedKeyParts(i);
    EncryptedKeyNests();
    assert RSA_OAEP != "";
    AlgorithmReadsBack(ENCRYPTED_KEY, EncryptedKeyModel(i), EncryptionMethod, ENCRYPTION_METHOD, RSA_OAEP);
  }

  lemma EncryptedKeyValueReadsBack(i: BuildInput)
    ensures Child(Child(Norm(ENCRYPTED_KEY, EncryptedKeyModel(i)), CipherData), CipherValue).text
         == Some(WrappedKeyText(i.remote.certificate.key, i.session))
  {
    EncryptedKeyParts(i);
    EncryptedKeyNests();
    WrappedKeyReadsBack(ENCRYPTED_KEY, CIPHER_DATA, OPTIONAL_TEXT, EncryptedKeyModel(i), WrappedCipher(i),
                        WrappedKeyText(i.remote.certificate.key, i.session));
  }

  lemma ListedDataReferences(i: BuildInput)
    ensures Children(DataReferenceList(i), DataReference) == DataReferenceModels(i.ids.attachments)
  {
    assert i.ids.attachments == [] ==> DataReferenceModels(i.ids.attachments) == [];
  }

  lemma EncryptedKeyListReadsBack(i: BuildInput)
    ensures Children(Child(Norm(ENCRYPTED_KEY, EncryptedKeyModel(i)), ReferenceList), DataReference)
         == NormAll(REFERENCE_LIST.schema, DataReferenceModels(i.ids.attachments))
  {
    EncryptedKeyParts(i);
    EncryptedKeyNests();
    FieldHere(REFERENCE_LIST);
    ListedDataReferences(i);
    DataReferencesReadBack(ENCRYPTED_KEY, REFERENCE_LIST, REFERENCE_LIST.schema, EncryptedKeyModel(i),
                           DataReferenceList(i));
  }

  lemma WrappedKeyReadsBack(key: Schema, data: Schema, text: Schema, m: Model, cipher: Model, value: Text)
    requires Nests(key, CipherData, data) && Nests(data, CipherValue, text) && HasText(text)
    requires Child(m, CipherData) == cipher && Child(cipher, CipherValue) == TextModel(value) && !value.Plain?
    ensures Child(Child(Norm(key, m), CipherData), CipherValue).text == Some(value)
  {
    NormChild(key, m, CipherData);
    CryptographicTextReadsBack(data, cipher, CipherValue, text, value);
  }

  lemma DataReferencesReadBack(key: Schema, list: Schema, inner: Schema, m: Model, references: Model)
    requires Nests(key, ReferenceList, list) && Nests(list, DataReference, inner)
    requires Child(m, ReferenceList) == references
    ensures Children(Child(Norm(key, m), ReferenceList), DataReference)
         == NormAll(inner, Children(references, DataReference))
  {
    NormChild(key, m, ReferenceList);
    NormChildren(list, references, DataReference);
  }

  /** The encrypted data, read back: its identifier, its algorithm and the attachment it names. */
  lemma EncryptedDataReadsBack(encryptedKeyId: string, attachmentId: string, id: string)
    requires id != ""
    ensures var read := Norm(ENCRYPTED_TYPE, EncryptedDataModel(encryptedKeyId, attachmentId, id));
            && AttributeOf(read, PlainId) == Some(id)
            && AttributeOf(Child(read, EncryptionMethod), Algorithm) == Some(AES128_GCM)
            && AttributeOf(Child(Child(read, CipherData), CipherReference), Uri).GetOr("") == "cid:" + attachmentId
  {
    var m := EncryptedDataModel(encryptedKeyId, attachmentId, id);
    EncryptedDataParts(encryptedKeyId, attachmentId, id);
    EncryptedDataNests();
    EncryptedKeyNests();
    assert AES128_GCM != "";
    NormAttributeSome(ENCRYPTED_TYPE, m, PlainId, id);
    AlgorithmReadsBack(ENCRYPTED_TYPE, m, EncryptionMethod, ENCRYPTION_METHOD, AES128_GCM);
    NormChild(ENCRYPTED_TYPE, m, CipherData);
    NormChild(CIPHER_DATA, AttachmentCipher(attachmentId), CipherReference);
    NormAttributeOr(CIPHER_REFERENCE, AttachmentCipherReference(attachmentId), Uri);
  }

  lemma DataReferenceReadsBack(id: string)
    ensures UriOf(Norm(REFERENCE_LIST.schema, Model(map[Uri := "#" + id], None, map[]))) == "#" + id
  {
    NormAttributeOr(REFERENCE_LIST.schema, Model(map[Uri := "#" + id], None, map[]), Uri);
  }

  /** The header of an honest message leads to its one attachment. */
  predicate LeadsTo(security: Model, reference: Model, attachmentId: string, id: string) {
    && UriOf(reference) == "#" + id
    && |Children(security, EncryptedData)| == 1
    && var data := Children(security, EncryptedData)[0];
       && AttributeOf(data, PlainId) == Some(id)
       && AttributeOf(Child(data, EncryptionMethod), Algorithm) == Some(AES128_GCM)
       && AttributeOf(Child(Child(data, CipherData), CipherReference), Uri).GetOr("") == "cid:" + attachmentId
  }

  /** The named attachment is decrypted with the session key it was sealed under. */
  lemma AttachmentIsDecrypted(security: Model, reference: Model, attachments: map<string, Bytes>, session: SessionKey,
                              attachmentId: string, id: string, content: Bytes)
    requires LeadsTo(security, reference, attachmentId, id)
    requires attachmentId in attachments && attachments[attachmentId] == Sealed(session, content)
    ensures DecryptReference(reference, security, attachments, session) == Ok(Opened(attachmentId, content))
  {
    assert ("#" + id)[1..] == id;
    AttachmentUri(attachmentId);
  }

  lemma SealedAttachmentIsDecrypted(policy: SecurityPolicy, security: Model, key: Key, attachments: map<string, Bytes>,
                                    session: SessionKey, attachmentId: string, id: string, content: Bytes)
    requires OptionalChild(security, EncryptedKey).Some?
    requires var wrapped := Child(security, EncryptedKey);
             && AttributeOf(Child(wrapped, EncryptionMethod), Algorithm) == Some(RSA_OAEP)
             && Child(Child(wrapped, CipherData), CipherValue).text == Some(WrappedKeyText(key, session))
    requires |DataReferences(security)| == 1 && LeadsTo(security, DataReferences(security)[0], attachmentId, id)
    requires attachmentId in attachments && attachments[attachmentId] == Sealed(session, content)
    ensures DecryptedData(policy, key, security, attachments) == Ok(map[attachmentId := content])
  {
    var references := DataReferences(security);
    AttachmentIsDecrypted(security, references[0], attachments, session, attachmentId, id, content);
    assert references[1..] == [];
    var none: map<string, Bytes> := map[];
    assert none[attachmentId := content] == map[attachmentId := content];
    assert DecryptReferences(references, security, attachments, session, none)
        == DecryptReferences(references[1..], security, attachments, session, none[attachmentId := content]);
    assert SessionKeyOf(security, key) == Ok(session);
  }

  /** An honest message is decrypted by the recipient it was encrypted for. */
  lemma HonestAttachmentIsDecrypted(policy: SecurityPolicy, i: BuildInput, references: seq<Model>,
                                    attachments: map<string, Bytes>,
                                    content: Bytes)
    requires HonestIds(i.ids)
    requires i.ids.attachments[0].0 in attachments
    requires attachments[i.ids.attachments[0].0] == Sealed(i.session, content)
    ensures DecryptedData(policy, i.remote.certificate.key, Norm(SECURITY, UserSecurityModel(i, references)),
                          attachments)
         == Ok(map[i.ids.attachments[0].0 := content])
  {
    var attachment := i.ids.attachments[0];
    var read := Norm(SECURITY, UserSecurityModel(i, references));
    HonestSecurityReadsBack(i, references);
    EncryptedKeyReadsBack(i);
    EncryptedDataReadsBack(i.ids.encryptedKeyId, attachment.0, attachment.1);
    DataReferenceReadsBack(attachment.1);
    NormEach(REFERENCE_LIST.schema, DataReferenceModels(i.ids.attachments));
    SealedAttachmentIsDecrypted(policy, read, i.remote.certificate.key, attachments, i.session, attachment.0,
                                attachment.1, content);
  }

  lemma HonestSecurityReadsBack(i: BuildInput, references: seq<Model>)
    requires |i.ids.attachments| == 1
    ensures var read := Norm(SECURITY, UserSecurityModel(i, references));
            && OptionalChild(read, EncryptedKey).Some?
            && Child(read, EncryptedKey) == Norm(ENCRYPTED_KEY, EncryptedKeyModel(i))
            && Children(read, EncryptedData)
               == [Norm(ENCRYPTED_TYPE, EncryptedDataModel(i.ids.encryptedKeyId, i.ids.attachments[0].0,
                                                           i.ids.attachments[0].1))]
  {
    var security := UserSecurityModel(i, references);
    UserSecurityParts(i, references);
    SecurityNests();
    NormChild(SECURITY, security, EncryptedKey);
    NormChildren(SECURITY, security, EncryptedData);
    NormEach(ENCRYPTED_TYPE, Children(security, EncryptedData));
  }
}
