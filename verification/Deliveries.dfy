/** Built documents carry one Messaging element and one signature, their own, so a network can always
    deliver them (as4/core/receipt.py, as4/profiles/peppol/message.py). */
module Deliveries {
  import opened Terms
  import opened XmlMapping
  import opened Schemas
  import opened Documents
  import opened Dsig
  import opened Errors
  import opened Messages
  import opened DocumentIdentifier
  import opened Peppol
  import opened Receipts
  import opened Builder
  import opened Envelopes
  import opened Authenticity
  import opened Agreement
  import opened Construction
  import opened Readable
  import opened HonestMessages
  import opened HonestSecurity

  // ---------------------------------------------------------------- tags

  /** No class inside declares a Messaging child. */
  predicate NoMessagingIn(s: Schema)
    decreases s
  {
    match s
    case End => true
    case AttributeField(_, _, rest) => NoMessagingIn(rest)
    case TextField(_, rest) => NoMessagingIn(rest)
    case ChildField(u, _, schema, rest) => !u.Messaging? && NoMessagingIn(schema) && NoMessagingIn(rest)
  }

  lemma NodesOfConcat(a: seq<Element>, b: seq<Element>)
    ensures NodesOfAll(a + b) == NodesOfAll(a) + NodesOfAll(b)
  {
    if a == [] {
      assert a + b == b;
    } else {
      assert (a + b)[1..] == a[1..] + b;
      NodesOfConcat(a[1..], b);
    }
  }

  lemma {:induction false} NeverTagged(s: Schema, m: Model)
    requires NoMessagingIn(s)
    ensures forall n :: n in NodesOfAll(DumpChildren(s, m)) ==> !n.tag.Messaging?
    decreases s, m, 0
  {
    match s
    case End =>
    case AttributeField(_, _, rest) => NeverTagged(rest, m);
    case TextField(_, rest) => NeverTagged(rest, m);
    case ChildField(u, _, schema, rest) =>
      NeverTagged(rest, m);
      NeverTaggedList(schema, u, Children(m, u));
      NodesOfConcat(DumpAll(schema, u, Children(m, u)), DumpChildren(rest, m));
  }

  lemma {:induction false} NeverTaggedList(s: Schema, u: Tag, ms: seq<Model>)
    requires NoMessagingIn(s) && !u.Messaging?
    ensures forall n :: n in NodesOfAll(DumpAll(s, u, ms)) ==> !n.tag.Messaging?
    decreases s, ms, 0
  {
    if ms != [] {
      NeverTagged(s, ms[0]);
      NeverTaggedList(s, u, ms[1..]);
      assert NodesOfAll(DumpAll(s, u, ms)) == Nodes(Dump(s, u, ms[0])) + NodesOfAll(DumpAll(s, u, ms[1..]));
    }
  }

  lemma NoMessagingField(f: Schema)
    requires f.ChildField? && !f.tag.Messaging? && NoMessagingIn(f.schema) && NoMessagingIn(f.rest)
    ensures NoMessagingIn(f)
  {
  }

  lemma SignatureNamesNoMessaging()
    ensures NoMessagingIn(SIGNATURE)
  {
  }

  lemma EncryptedKeyNamesNoMessaging()
    ensures NoMessagingIn(ENCRYPTED_KEY)
  {
  }

  lemma EncryptedDataNamesNoMessaging()
    ensures NoMessagingIn(ENCRYPTED_TYPE)
  {
  }

  lemma SecurityNamesNoMessaging()
    ensures NoMessagingIn(SECURITY) && NoMessagingIn(BODY)
  {
    SignatureNamesNoMessaging();
    EncryptedKeyNamesNoMessaging();
    EncryptedDataNamesNoMessaging();
    NoMessagingField(SECURITY.rest.rest.rest);
    NoMessagingField(SECURITY.rest.rest);
    NoMessagingField(SECURITY.rest);
    NoMessagingField(SECURITY);
  }

  lemma SignalNamesNoMessaging()
    ensures NoMessagingIn(SIGNAL_MESSAGE)
  {
  }

  lemma UserMessageNamesNoMessaging()
    ensures NoMessagingIn(USER_MESSAGE)
  {
  }

  lemma MessagingIsNotInside()
    ensures NoMessagingIn(MESSAGING)
  {
    SignalNamesNoMessaging();
    UserMessageNamesNoMessaging();
    NoMessagingField(MESSAGING.rest);
    NoMessagingField(MESSAGING);
  }

  lemma NodesOfDump(s: Schema, t: Tag, m: Model)
    ensures Nodes(Dump(s, t, m)) == {Dump(s, t, m)} + NodesOfAll(DumpChildren(s, m))
  {
  }

  /** The elements of a built document. */
  lemma EnvelopeNodes(security: Model, messaging: Model, ids: References)
    ensures var header := Dump(HEADER, Header, HeaderModel(security, messaging));
            var doc := EnvelopeElement(security, messaging, ids);
            Nodes(doc) == {doc, header} + Nodes(Dump(SECURITY, Security, security))
                          + Nodes(Dump(MESSAGING, Messaging, messaging)) + Nodes(Dump(BODY, Body, BodyModel(ids)))
  {
    EnvelopeChildren(security, messaging, ids);
    TwoChildNodes(ENVELOPE, Envelope, EnvelopeModel(security, messaging, ids), HeaderModel(security, messaging),
                  BodyModel(ids));
    TwoChildNodes(HEADER, Header, HeaderModel(security, messaging), security, messaging);
  }

  lemma TwoChildNodes(f: Schema, t: Tag, m: Model, first: Model, second: Model)
    requires f.ChildField? && f.rest.ChildField? && f.rest.rest.End?
    requires Children(m, f.tag) == [first] && Children(m, f.rest.tag) == [second]
    ensures Nodes(Dump(f, t, m)) == {Dump(f, t, m)} + Nodes(Dump(f.schema, f.tag, first))
            + Nodes(Dump(f.rest.schema, f.rest.tag, second))
  {
    var a, b := Dump(f.schema, f.tag, first), Dump(f.rest.schema, f.rest.tag, second);
    assert DumpAll(f.schema, f.tag, [first]) == [a];
    assert DumpAll(f.rest.schema, f.rest.tag, [second]) == [b];
    assert DumpChildren(f.rest, m) == [b];
    assert DumpChildren(f, m) == [a, b];
    assert NodesOfAll([b]) == Nodes(b);
    assert [a, b][1..] == [b];
  }

  /** A built document has one Messaging element. */
  lemma BuiltDocumentHasOneMessaging(security: Model, messaging: Model, ids: References)
    ensures OneMessaging(EnvelopeElement(security, messaging, ids))
  {
    EnvelopeNodes(security, messaging, ids);
    SecurityNamesNoMessaging();
    MessagingIsNotInside();
    OnlyTopIsTagged(SECURITY, Security, security);
    OnlyTopIsTagged(MESSAGING, Messaging, messaging);
    OnlyTopIsTagged(BODY, Body, BodyModel(ids));
    forall n | n in Nodes(EnvelopeElement(security, messaging, ids)) && n.tag.Messaging?
      ensures n == Dump(MESSAGING, Messaging, messaging)
    {
    }
  }

  lemma OnlyTopIsTagged(s: Schema, t: Tag, m: Model)
    requires NoMessagingIn(s)
    ensures forall n :: n in Nodes(Dump(s, t, m)) && n.tag.Messaging? ==> n == Dump(s, t, m)
    ensures !t.Messaging? ==> forall n :: n in Nodes(Dump(s, t, m)) ==> !n.tag.Messaging?
  {
    NeverTagged(s, m);
    NodesOfDump(s, t, m);
  }

  // ---------------------------------------------------------------- signatures

  /** The only signature value that dumping the model writes is `t`. */
  predicate SignsOnly(s: Schema, m: Model, t: Text)
    decreases s, m, 0
  {
    match s
    case End => true
    case AttributeField(_, _, rest) => SignsOnly(rest, m, t)
    case TextField(_, rest) => (TextOf(m).SignatureText? ==> TextOf(m) == t) && SignsOnly(rest, m, t)
    case ChildField(u, _, schema, rest) => AllSignOnly(schema, Children(m, u), t) && SignsOnly(rest, m, t)
  }

  predicate AllSignOnly(s: Schema, ms: seq<Model>, t: Text)
    decreases s, ms, 0
  {
    ms == [] || (SignsOnly(s, ms[0], t) && AllSignOnly(s, ms[1..], t))
  }

  lemma {:induction false} OwnTextSigns(s: Schema, m: Model, t: Text)
    requires SignsOnly(s, m, t)
    ensures DumpText(s, m).SignatureText? ==> DumpText(s, m) == t
  {
    match s
    case End =>
    case AttributeField(_, _, rest) => OwnTextSigns(rest, m, t);
    case TextField(_, _) =>
    case ChildField(_, _, _, rest) => OwnTextSigns(rest, m, t);
  }

  lemma {:induction false} DumpedSignatures(s: Schema, m: Model, t: Text)
    requires SignsOnly(s, m, t)
    ensures forall n :: n in NodesOfAll(DumpChildren(s, m)) && n.text.SignatureText? ==> n.text == t
    decreases s, m, 0
  {
    match s
    case End =>
    case AttributeField(_, _, rest) => DumpedSignatures(rest, m, t);
    case TextField(_, rest) => DumpedSignatures(rest, m, t);
    case ChildField(u, _, schema, rest) =>
      DumpedSignatures(rest, m, t);
      DumpedListSignatures(schema, u, Children(m, u), t);
      NodesOfConcat(DumpAll(schema, u, Children(m, u)), DumpChildren(rest, m));
  }

  lemma {:induction false} DumpedListSignatures(s: Schema, u: Tag, ms: seq<Model>, t: Text)
    requires AllSignOnly(s, ms, t)
    ensures forall n :: n in NodesOfAll(DumpAll(s, u, ms)) && n.text.SignatureText? ==> n.text == t
    decreases s, ms, 0
  {
    if ms != [] {
      OwnTextSigns(s, ms[0], t);
      DumpedSignatures(s, ms[0], t);
      DumpedListSignatures(s, u, ms[1..], t);
      assert NodesOfAll(DumpAll(s, u, ms)) == Nodes(Dump(s, u, ms[0])) + NodesOfAll(DumpAll(s, u, ms[1..]));
    }
  }

  /** The only signature value in a dumped tree is `t`. */
  lemma DumpSignsOnly(s: Schema, u: Tag, m: Model, t: Text)
    requires SignsOnly(s, m, t)
    ensures forall n :: n in Nodes(Dump(s, u, m)) && n.text.SignatureText? ==> n.text == t
  {
    OwnTextSigns(s, m, t);
    DumpedSignatures(s, m, t);
    NodesOfDump(s, u, m);
  }

  // ---------------------------------------------------------------- one field at a time

  lemma SignsChild(f: Schema, m: Model, child: Model, t: Text)
    requires f.ChildField? && Children(m, f.tag) == [child] && SignsOnly(f.schema, child, t) && SignsOnly(f.rest, m, t)
    ensures SignsOnly(f, m, t)
  {
    assert AllSignOnly(f.schema, [child], t);
  }

  lemma SignsPair(f: Schema, m: Model, first: Model, second: Model, t: Text)
    requires f.ChildField? && Children(m, f.tag) == [first, second]
    requires SignsOnly(f.schema, first, t) && SignsOnly(f.schema, second, t) && SignsOnly(f.rest, m, t)
    ensures SignsOnly(f, m, t)
  {
    assert [first, second][1..] == [second];
    assert AllSignOnly(f.schema, [second], t);
  }

  lemma SignsAbsent(f: Schema, m: Model, t: Text)
    requires f.ChildField? && Children(m, f.tag) == [] && SignsOnly(f.rest, m, t)
    ensures SignsOnly(f, m, t)
  {
  }

  /** A class without text, at any depth. */
  predicate Textless(s: Schema)
    decreases s
  {
    match s
    case End => true
    case AttributeField(_, _, rest) => Textless(rest)
    case TextField(_, _) => false
    case ChildField(_, _, schema, rest) => Textless(schema) && Textless(rest)
  }

  lemma {:induction false} TextlessSigns(s: Schema, m: Model, t: Text)
    requires Textless(s)
    ensures SignsOnly(s, m, t)
    decreases s, m, 0
  {
    if !s.End? {
      TextlessSigns(s.rest, m, t);
      if s.ChildField? {
        TextlessAllSign(s.schema, Children(m, s.tag), t);
      }
    }
  }

  lemma {:induction false} TextlessAllSign(s: Schema, ms: seq<Model>, t: Text)
    requires Textless(s)
    ensures AllSignOnly(s, ms, t)
    decreases s, ms, 0
  {
    if ms != [] {
      TextlessSigns(s, ms[0], t);
      TextlessAllSign(s, ms[1..], t);
    }
  }

  lemma SignsTextless(f: Schema, m: Model, t: Text)
    requires f.ChildField? && Textless(f.schema) && SignsOnly(f.rest, m, t)
    ensures SignsOnly(f, m, t)
  {
    TextlessAllSign(f.schema, Children(m, f.tag), t);
  }

  lemma SignsText(f: Schema, m: Model, text: Text, t: Text)
    requires f.ChildField? && f.schema == REQUIRED_TEXT && Children(m, f.tag) == [TextModel(text)]
    requires !text.SignatureText?
    requires SignsOnly(f.rest, m, t)
    ensures SignsOnly(f, m, t)
  {
    assert SignsOnly(REQUIRED_TEXT, TextModel(text), t);
    SignsChild(f, m, TextModel(text), t);
  }

  // ---------------------------------------------------------------- the security header

  /** A reference with one digest value, which is no signature value. */
  predicate DigestOnly(r: Model) {
    |Children(r, DigestValue)| == 1 && !TextOf(Child(r, DigestValue)).SignatureText?
  }

  lemma ReferenceClassesAreTextless()
    ensures Textless(TRANSFORMS) && Textless(REQUIRED_ALGORITHM) && Textless(KEY_INFO) && Textless(ENCRYPTION_METHOD)
    ensures Textless(REFERENCE_LIST) && Textless(CIPHER_REFERENCE)
  {
  }

  lemma ReferenceSignsNothing(r: Model, t: Text)
    requires DigestOnly(r)
    ensures SignsOnly(REFERENCE, r, t)
  {
    var digest := Child(r, DigestValue);
    ReferenceClassesAreTextless();
    assert SignsOnly(REQUIRED_TEXT, digest, t);
    TextlessSigns(REFERENCE.rest.rest.rest, r, t);
    SignsChild(REFERENCE.rest.rest, r, digest, t);
    SignsTextless(REFERENCE.rest, r, t);
    SignsTextless(REFERENCE, r, t);
  }

  lemma {:induction false} ReferencesSignNothing(references: seq<Model>, t: Text)
    requires forall r | r in references :: DigestOnly(r)
    ensures AllSignOnly(REFERENCE, references, t)
  {
    if references != [] {
      ReferenceSignsNothing(references[0], t);
      ReferencesSignNothing(references[1..], t);
    }
  }

  lemma SignedInfoSignsNothing(references: seq<Model>, t: Text)
    requires forall r | r in references :: DigestOnly(r)
    ensures SignsOnly(SIGNED_INFO, SignedInfoModel(references), t)
  {
    var m := SignedInfoModel(references);
    ReferenceClassesAreTextless();
    ReferencesSignNothing(references, t);
    TextlessSigns(SIGNED_INFO.rest.rest.rest, m, t);
    assert Children(m, Reference) == references;
    assert SignsOnly(SIGNED_INFO.rest.rest, m, t);
    SignsTextless(SIGNED_INFO.rest, m, t);
    SignsTextless(SIGNED_INFO, m, t);
  }

  lemma SignatureSignsOnce(ids: References, key: Key, references: seq<Model>)
    requires forall r | r in references :: DigestOnly(r)
    ensures SignsOnly(SIGNATURE, SignatureOf(ids, key, references), Signed(key, references))
  {
    var m, t := SignatureOf(ids, key, references), Signed(key, references);
    SignatureModelParts(ids, key, references);
    ReferenceClassesAreTextless();
    SignedInfoSignsNothing(references, t);
    TextlessSigns(SIGNATURE.rest.rest.rest, m, t);
    SignsTextless(SIGNATURE.rest.rest, m, t);
    assert SignsOnly(SIGNATURE.rest.schema, TextModel(t), t);
    SignsChild(SIGNATURE.rest, m, TextModel(t), t);
    SignsChild(SIGNATURE, m, SignedInfoModel(references), t);
  }

  lemma TokenSignsNothing(tokenId: string, certificate: Certificate, t: Text)
    ensures SignsOnly(BINARY_SECURITY_TOKEN, TokenModel(tokenId, certificate), t)
  {
    var m := TokenModel(tokenId, certificate);
    assert SignsOnly(BINARY_SECURITY_TOKEN.rest.rest.rest, m, t);
    assert SignsOnly(BINARY_SECURITY_TOKEN.rest.rest, m, t);
  }

  lemma SignalSecuritySignsOnce(ids: References, own: Credentials, references: seq<Model>)
    requires forall r | r in references :: DigestOnly(r)
    ensures SignsOnly(SECURITY, SignalSecurityModel(ids, own, references), Signed(own.key, references))
  {
    var m, t := SignalSecurityModel(ids, own, references), Signed(own.key, references);
    SignalSecurityParts(ids, own, references);
    SignatureSignsOnce(ids, own.key, references);
    TokenSignsNothing(ids.signatureTokenId, own.certificate, t);
    TextlessSigns(SECURITY.rest.rest.rest.rest, m, t);
    SignsChild(SECURITY.rest.rest.rest, m, SignatureOf(ids, own.key, references), t);
    SignsAbsent(SECURITY.rest.rest, m, t);
    SignsAbsent(SECURITY.rest, m, t);
    SignsChild(SECURITY, m, TokenModel(ids.signatureTokenId, own.certificate), t);
  }

  /** The three children that EncryptedKey and EncryptedData share. */
  lemma EncryptedSigns(f: Schema, m: Model, cipher: Model, t: Text)
    requires EncryptedShape(f) && Children(m, CipherData) == [cipher]
    requires SignsOnly(CIPHER_DATA, cipher, t) && SignsOnly(AfterAttributes(f), m, t)
    ensures SignsOnly(f, m, t)
  {
    ReferenceClassesAreTextless();
    var attributes := f.rest.rest.rest;
    assert SignsOnly(attributes.rest.rest.rest, m, t);
    assert SignsOnly(attributes.rest.rest, m, t);
    assert SignsOnly(attributes, m, t);
    SignsChild(f.rest.rest, m, cipher, t);
    SignsTextless(f.rest, m, t);
    SignsTextless(f, m, t);
  }

  lemma EncryptedKeySignsNothing(i: BuildInput, t: Text)
    ensures SignsOnly(ENCRYPTED_KEY, EncryptedKeyModel(i), t)
  {
    var m, cipher := EncryptedKeyModel(i), WrappedCipher(i);
    EncryptedKeyParts(i);
    EncryptedHaveShape();
    ReferenceClassesAreTextless();
    SignsTextless(CIPHER_DATA.rest, cipher, t);
    assert SignsOnly(OPTIONAL_TEXT, TextModel(WrappedKeyText(i.remote.certificate.key, i.session)), t);
    SignsChild(CIPHER_DATA, cipher, TextModel(WrappedKeyText(i.remote.certificate.key, i.session)), t);
    SignsTextless(AfterAttributes(ENCRYPTED_KEY), m, t);
    EncryptedSigns(ENCRYPTED_KEY, m, cipher, t);
  }

  lemma EncryptedDataSignsNothing(encryptedKeyId: string, attachmentId: string, id: string, t: Text)
    ensures SignsOnly(ENCRYPTED_TYPE, EncryptedDataModel(encryptedKeyId, attachmentId, id), t)
  {
    var m, cipher := EncryptedDataModel(encryptedKeyId, attachmentId, id), AttachmentCipher(attachmentId);
    EncryptedDataParts(encryptedKeyId, attachmentId, id);
    EncryptedHaveShape();
    ReferenceClassesAreTextless();
    SignsTextless(CIPHER_DATA.rest, cipher, t);
    SignsAbsent(CIPHER_DATA, cipher, t);
    EncryptedSigns(ENCRYPTED_TYPE, m, cipher, t);
  }

  lemma UserSecurityFieldsSign(f: Schema, m: Model, token: Model, token': Model, key: Model, data: Model,
                               signature: Model, t: Text)
    requires f.ChildField? && f.tag == BinarySecurityToken && f.schema == BINARY_SECURITY_TOKEN
    requires f.rest.ChildField? && f.rest.tag == EncryptedKey && f.rest.schema == ENCRYPTED_KEY
    requires f.rest.rest.ChildField? && f.rest.rest.tag == EncryptedData && f.rest.rest.schema == ENCRYPTED_TYPE
    requires f.rest.rest.rest.ChildField? && f.rest.rest.rest.tag == Signature && f.rest.rest.rest.schema == SIGNATURE
    requires f.rest.rest.rest.rest == AttributeField(MustUnderstand, false, End)
    requires Children(m, BinarySecurityToken) == [token, token'] && Children(m, EncryptedKey) == [key]
    requires Children(m, EncryptedData) == [data] && Children(m, Signature) == [signature]
    requires SignsOnly(BINARY_SECURITY_TOKEN, token, t) && SignsOnly(BINARY_SECURITY_TOKEN, token', t)
    requires SignsOnly(ENCRYPTED_KEY, key, t) && SignsOnly(ENCRYPTED_TYPE, data, t)
    requires SignsOnly(SIGNATURE, signature, t)
    ensures SignsOnly(f, m, t)
  {
    TextlessSigns(f.rest.rest.rest.rest, m, t);
    SignsChild(f.rest.rest.rest, m, signature, t);
    SignsChild(f.rest.rest, m, data, t);
    SignsChild(f.rest, m, key, t);
    SignsPair(f, m, token, token', t);
  }

  lemma UserSecuritySignsOnce(i: BuildInput, references: seq<Model>)
    requires |i.ids.attachments| == 1 && forall r | r in references :: DigestOnly(r)
    ensures SignsOnly(SECURITY, UserSecurityModel(i, references), Signed(i.local.credentials.key, references))
  {
    var t, attachment := Signed(i.local.credentials.key, references), i.ids.attachments[0];
    UserSecurityParts(i, references);
    TokenSignsNothing(i.ids.encryptedKeyTokenId, i.remote.certificate, t);
    TokenSignsNothing(i.ids.signatureTokenId, i.local.credentials.certificate, t);
    EncryptedKeySignsNothing(i, t);
    EncryptedDataSignsNothing(i.ids.encryptedKeyId, attachment.0, attachment.1, t);
    SignatureSignsOnce(i.ids, i.local.credentials.key, references);
    SecurityHasShape();
    UserSecurityFieldsSign(SECURITY, UserSecurityModel(i, references),
                           TokenModel(i.ids.encryptedKeyTokenId, i.remote.certificate),
                           TokenModel(i.ids.signatureTokenId, i.local.credentials.certificate), EncryptedKeyModel(i),
                           EncryptedDataModel(i.ids.encryptedKeyId, attachment.0, attachment.1),
                           SignatureOf(i.ids, i.local.credentials.key, references), t);
  }

  // ---------------------------------------------------------------- header blocks

  lemma MessageInfoSignsNothing(now: Text, messageId: string, refTo: Text, t: Text)
    requires now.Plain? && refTo.Plain?
    ensures SignsOnly(MESSAGE_INFO, MessageInfoModel(now, messageId, refTo), t)
  {
    var m := MessageInfoModel(now, messageId, refTo);
    if refTo == Plain("") {
      SignsAbsent(MESSAGE_INFO.rest.rest, m, t);
    } else {
      SignsText(MESSAGE_INFO.rest.rest, m, refTo, t);
    }
    SignsText(MESSAGE_INFO.rest, m, Plain(messageId), t);
    SignsText(MESSAGE_INFO, m, now, t);
  }

  lemma PartySignsNothing(p: PartyIdentity, role: string, t: Text)
    requires PeppolParty(p) && p.partyId.Plain?
    ensures SignsOnly(PARTY, PartyModel(p, role), t)
  {
    var m := PartyModel(p, role);
    assert Children(m, PartyId) == [PartyIdModel(p)];
    assert SignsOnly(PARTY_ID.rest, PartyIdModel(p), t);
    assert SignsOnly(PARTY_ID, PartyIdModel(p), t);
    SignsText(PARTY.rest, m, Plain(role), t);
    SignsChild(PARTY, m, PartyIdModel(p), t);
  }

  lemma PartyInfoSignsNothing(i: BuildInput, t: Text)
    requires PeppolParty(i.local.identity) && i.local.identity.partyId.Plain?
    requires PeppolParty(i.remote.identity) && i.remote.identity.partyId.Plain?
    ensures SignsOnly(PARTY_INFO, PartyInfoModel(i), t)
  {
    PartySignsNothing(i.local.identity, INITIATOR, t);
    PartySignsNothing(i.remote.identity, RESPONDER, t);
    SignsChild(PARTY_INFO.rest, PartyInfoModel(i), PartyModel(i.remote.identity, RESPONDER), t);
    SignsChild(PARTY_INFO, PartyInfoModel(i), PartyModel(i.local.identity, INITIATOR), t);
  }

  /** A class with a text and attributes. */
  lemma TextClassSigns(f: Schema, m: Model, t: Text)
    requires f.TextField? && Textless(f.rest) && !TextOf(m).SignatureText?
    ensures SignsOnly(f, m, t)
  {
    TextlessSigns(f.rest, m, t);
  }

  lemma CollaborationSignsNothing(a: BuilderArgs, conversationId: string, t: Text)
    ensures SignsOnly(COLLABORATION_INFO, CollaborationModel(a, conversationId), t)
  {
    var m, f := CollaborationModel(a, conversationId), COLLABORATION_INFO;
    var service := Model(map[TypeName := CENBII_PROCID_UBL], Some(Plain(a.process)), map[]);
    SignsText(f.rest.rest.rest, m, Plain(conversationId), t);
    SignsText(f.rest.rest, m, Plain(BUSDOX_DOCID_QNS + "::" + Print(a.documentType)), t);
    TextClassSigns(f.rest.schema, service, t);
    SignsChild(f.rest, m, service, t);
    TextClassSigns(f.schema, TextModel(Plain(PEPPOL_AP_PROVIDER)), t);
    SignsChild(f, m, TextModel(Plain(PEPPOL_AP_PROVIDER)), t);
  }

  lemma PropertySignsNothing(name: string, value: string, propertyType: Option<string>, t: Text)
    ensures SignsOnly(PROPERTY, PropertyModel(name, value, propertyType), t)
  {
    TextClassSigns(PROPERTY.rest, PropertyModel(name, value, propertyType), t);
  }

  lemma PropertyPairSignsNothing(m: Model, first: Model, second: Model, t: Text)
    requires Children(m, Property) == [first, second] && SignsOnly(PROPERTY, first, t) && SignsOnly(PROPERTY, second, t)
    ensures SignsOnly(PROPERTIES, m, t)
  {
    SignsPair(PROPERTIES, m, first, second, t);
  }

  lemma PayloadInfoSignsNothing(m: Model, id: string, t: Text)
    requires Children(m, PartInfo) == [PartInfoModel(id)]
    ensures SignsOnly(PAYLOAD_INFO, m, t)
  {
    var part := PartInfoModel(id);
    PropertySignsNothing("MimeType", "application/xml", None, t);
    PropertySignsNothing(COMPRESSION_TYPE, GZIP, None, t);
    PropertyPairSignsNothing(GZIP_PROPERTIES, PropertyModel("MimeType", "application/xml", None),
                             PropertyModel(COMPRESSION_TYPE, GZIP, None), t);
    PartInfoShape();
    PartInfoParts(id);
    PartSignsNothing(PART_INFO, part, t);
    SignsChild(PAYLOAD_INFO, m, part, t);
  }

  lemma PartSignsNothing(f: Schema, m: Model, t: Text)
    requires PartShape(f) && m.children.Keys == {PartProperties} && Children(m, PartProperties) == [GZIP_PROPERTIES]
    requires SignsOnly(PROPERTIES, GZIP_PROPERTIES, t)
    ensures SignsOnly(f, m, t)
  {
    assert PartSchema !in m.children.Keys && Description !in m.children.Keys;
    TextlessSigns(f.rest.rest.rest, m, t);
    SignsChild(f.rest.rest, m, GZIP_PROPERTIES, t);
    SignsAbsent(f.rest, m, t);
    SignsAbsent(f, m, t);
  }

  /** Input whose texts are plain. */
  predicate PlainHeader(i: BuildInput) {
    && i.now.Plain? && |i.ids.attachments| == 1
    && PeppolParty(i.local.identity) && i.local.identity.partyId.Plain?
    && PeppolParty(i.remote.identity) && i.remote.identity.partyId.Plain?
  }

  lemma UserMessageFieldsSign(f: Schema, m: Model, info: Model, party: Model, collaboration: Model, properties: Model,
                              payload: Model, t: Text)
    requires UserMessageShape(f)
    requires Children(m, MessageInfo) == [info] && SignsOnly(MESSAGE_INFO, info, t)
    requires Children(m, PartyInfo) == [party] && SignsOnly(PARTY_INFO, party, t)
    requires Children(m, CollaborationInfo) == [collaboration] && SignsOnly(COLLABORATION_INFO, collaboration, t)
    requires Children(m, MessageProperties) == [properties] && SignsOnly(PROPERTIES, properties, t)
    requires Children(m, PayloadInfo) == [payload] && SignsOnly(PAYLOAD_INFO, payload, t)
    ensures SignsOnly(f, m, t)
  {
    TextlessSigns(f.rest.rest.rest.rest.rest, m, t);
    SignsChild(f.rest.rest.rest.rest, m, payload, t);
    SignsChild(f.rest.rest.rest, m, properties, t);
    SignsChild(f.rest.rest, m, collaboration, t);
    SignsChild(f.rest, m, party, t);
    SignsChild(f, m, info, t);
  }

  lemma UserMessagePartsSign(i: BuildInput, t: Text)
    requires PlainHeader(i)
    ensures SignsOnly(MESSAGE_INFO, MessageInfoModel(i.now, i.ids.messageId, Plain("")), t)
    ensures SignsOnly(PARTY_INFO, PartyInfoModel(i), t)
    ensures SignsOnly(COLLABORATION_INFO, CollaborationModel(i.arguments, i.ids.conversationId), t)
    ensures SignsOnly(PROPERTIES, PropertiesModel(i), t)
    ensures SignsOnly(PAYLOAD_INFO, PayloadInfoModel(i), t)
  {
    MessageInfoSignsNothing(i.now, i.ids.messageId, Plain(""), t);
    PartyInfoSignsNothing(i, t);
    CollaborationSignsNothing(i.arguments, i.ids.conversationId, t);
    PropertySignsNothing(ORIGINAL_SENDER, i.arguments.sender, Some(ISO6523_ACTOR_ID), t);
    PropertySignsNothing(FINAL_RECIPIENT, i.arguments.recipient, Some(ISO6523_ACTOR_ID), t);
    PropertyPairSignsNothing(PropertiesModel(i), PropertyModels(i.arguments)[0], PropertyModels(i.arguments)[1], t);
    OnePart(i);
    PayloadInfoSignsNothing(PayloadInfoModel(i), i.ids.attachments[0].0, t);
  }

  lemma UserMessageSignsNothing(i: BuildInput, t: Text)
    requires PlainHeader(i)
    ensures SignsOnly(USER_MESSAGE, UserMessageModel(i), t)
  {
    UserMessagePartsSign(i, t);
    UserMessageHasShape();
    UserMessageParts(i);
    UserMessageFieldsSign(USER_MESSAGE, UserMessageModel(i), MessageInfoModel(i.now, i.ids.messageId, Plain("")),
                          PartyInfoModel(i),
                          CollaborationModel(i.arguments, i.ids.conversationId), PropertiesModel(i),
                          PayloadInfoModel(i), t);
  }

  lemma BlockSigns(f: Schema, m: Model, t: Text)
    requires MessagingShape(f)
    requires AllSignOnly(f.schema, Children(m, SignalMessage), t)
    requires AllSignOnly(USER_MESSAGE, Children(m, UserMessage), t)
    ensures SignsOnly(f, m, t)
  {
    TextlessSigns(f.rest.rest, m, t);
    assert SignsOnly(f.rest, m, t);
  }

  lemma UserMessagingSignsNothing(i: BuildInput, t: Text)
    requires PlainHeader(i)
    ensures SignsOnly(MESSAGING, UserMessagingModel(i), t)
  {
    UserMessageSignsNothing(i, t);
    UserMessagingBlock(i);
    assert AllSignOnly(USER_MESSAGE, [UserMessageModel(i)], t);
    MessagingHasShape();
    BlockSigns(MESSAGING, UserMessagingModel(i), t);
  }

  lemma {:induction false} PartsSignNothing(references: seq<Model>, parts: seq<Model>, t: Text)
    requires |parts| == |references| && forall i :: 0 <= i < |parts| ==>
               Children(parts[i], Reference) == [references[i]]
    requires forall r | r in references :: DigestOnly(r)
    ensures AllSignOnly(NR_PART, parts, t)
  {
    if parts != [] {
      ReferenceSignsNothing(references[0], t);
      SignsChild(NR_PART, parts[0], references[0], t);
      PartsSignNothing(references[1..], parts[1..], t);
    }
  }

  lemma ReceiptSignsNothing(references: seq<Model>, t: Text)
    requires forall r | r in references :: DigestOnly(r)
    ensures SignsOnly(RECEIPT, ReceiptModel(references), t)
  {
    var m := ReceiptModel(references);
    ReceiptModelAcknowledges(references);
    PartsHold(references);
    PartsSignNothing(references, PartModels(references), t);
    SignsChild(RECEIPT, m, Child(m, NonRepudiationInformation), t);
  }

  lemma PullRequestIsTextless()
    ensures SIGNAL_MESSAGE.rest.ChildField? && Textless(SIGNAL_MESSAGE.rest.schema)
  {
  }

  /** The receipt for a message whose references hold digests only. */
  lemma ReceiptMessageSignsNothing(m: Message, ids: References, now: Text, t: Text)
    requires m.error.None? && m.messageId.Plain? && now.Plain?
    requires forall r | r in SignatureReferences(m) :: DigestOnly(r)
    ensures SignsOnly(SIGNAL_MESSAGE, SignalMessageModel(m, ids, now), t)
  {
    var s, f := SignalMessageModel(m, ids, now), SIGNAL_MESSAGE;
    SignalParts(m, ids, now);
    MessageInfoSignsNothing(now, ids.messageId, m.messageId, t);
    ReceiptSignsNothing(SignatureReferences(m), t);
    PullRequestIsTextless();
    SignsAbsent(f.rest.rest.rest, s, t);
    SignsChild(f.rest.rest, s, ReceiptModel(SignatureReferences(m)), t);
    SignsTextless(f.rest, s, t);
    assert Children(s, MessageInfo) == [MessageInfoModel(now, ids.messageId, m.messageId)];
    SignsChild(f, s, MessageInfoModel(now, ids.messageId, m.messageId), t);
  }

  lemma ErrorSignsNothing(r: Refusal, t: Text)
    ensures SignsOnly(ERROR, ErrorModel(r), t)
  {
    var m := ErrorModel(r);
    TextlessSigns(ERROR.rest.rest, m, t);
    SignsText(ERROR.rest, m, Plain(DetailOf(r)), t);
    SignsAbsent(ERROR, m, t);
  }

  /** The error signal for a refused message. */
  lemma RefusalSignsNothing(m: Message, ids: References, now: Text, t: Text)
    requires m.error.Some? && m.messageId.Plain? && now.Plain?
    ensures SignsOnly(SIGNAL_MESSAGE, SignalMessageModel(m, ids, now), t)
  {
    var s, f := SignalMessageModel(m, ids, now), SIGNAL_MESSAGE;
    SignalParts(m, ids, now);
    MessageInfoSignsNothing(now, ids.messageId, m.messageId, t);
    ErrorSignsNothing(m.error.value, t);
    PullRequestIsTextless();
    SignsChild(f.rest.rest.rest, s, ErrorModel(m.error.value), t);
    SignsAbsent(f.rest.rest, s, t);
    SignsTextless(f.rest, s, t);
    assert Children(s, MessageInfo) == [MessageInfoModel(now, ids.messageId, m.messageId)];
    SignsChild(f, s, MessageInfoModel(now, ids.messageId, m.messageId), t);
  }

  lemma SignalBlockSigns(m: Message, ids: References, now: Text, t: Text)
    requires SignsOnly(SIGNAL_MESSAGE, SignalMessageModel(m, ids, now), t)
    ensures SignsOnly(MESSAGING, SignalMessagingModel(m, ids, now), t)
  {
    var b := SignalMessagingModel(m, ids, now);
    assert Children(b, SignalMessage) == [SignalMessageModel(m, ids, now)] && Children(b, UserMessage) == [];
    assert AllSignOnly(SIGNAL_MESSAGE, [SignalMessageModel(m, ids, now)], t);
    MessagingHasShape();
    BlockSigns(MESSAGING, b, t);
  }

  lemma ReceiptMessagingSignsNothing(m: Message, ids: References, now: Text, t: Text)
    requires m.error.None? && m.messageId.Plain? && now.Plain?
    requires forall r | r in SignatureReferences(m) :: DigestOnly(r)
    ensures SignsOnly(MESSAGING, SignalMessagingModel(m, ids, now), t)
  {
    ReceiptMessageSignsNothing(m, ids, now, t);
    SignalBlockSigns(m, ids, now, t);
  }

  // ---------------------------------------------------------------- documents

  lemma EnvelopeSigns(security: Model, messaging: Model, ids: References, t: Text)
    requires SignsOnly(SECURITY, security, t) && SignsOnly(MESSAGING, messaging, t)
    ensures forall n :: n in Nodes(EnvelopeElement(security, messaging, ids)) && n.text.SignatureText? ==> n.text == t
  {
    var m, header := EnvelopeModel(security, messaging, ids), HeaderModel(security, messaging);
    EnvelopeChildren(security, messaging, ids);
    SignsChild(HEADER.rest, header, messaging, t);
    SignsChild(HEADER, header, security, t);
    TextlessSigns(BODY, BodyModel(ids), t);
    SignsChild(ENVELOPE.rest, m, BodyModel(ids), t);
    SignsChild(ENVELOPE, m, header, t);
    DumpSignsOnly(ENVELOPE, Envelope, m, t);
  }

  lemma ReadIsDigestOnly(s: Schema, text: Schema, r: Model, value: Text)
    requires Nests(s, DigestValue, text) && HasText(text)
    requires Children(r, DigestValue) == [TextModel(value)] && !value.Plain? && !value.SignatureText?
    ensures DigestOnly(r) && DigestOnly(Norm(s, r))
  {
    NormChildren(s, r, DigestValue);
    CryptographicTextReadsBack(s, r, DigestValue, text, value);
  }

  lemma BuiltReferenceIsDigestOnly(uri: string, transform: string, content: Bytes)
    ensures DigestOnly(ReferenceModel(uri, transform, content))
    ensures DigestOnly(Norm(REFERENCE, ReferenceModel(uri, transform, content)))
  {
    ReferenceFields();
    ReadIsDigestOnly(REFERENCE, REQUIRED_TEXT, ReferenceModel(uri, transform, content), DigestText(SHA256, content));
  }

  lemma HeaderReferencesAreDigestOnly(ids: References, messaging: Model)
    ensures forall r | r in HeaderReferences(ids, messaging) :: DigestOnly(r)
  {
    BuiltReferenceIsDigestOnly("#" + ids.messagingId, EXCLUSIVE_C14N, Xml(Dump(MESSAGING, Messaging, messaging)));
    BuiltReferenceIsDigestOnly("#" + ids.bodyId, EXCLUSIVE_C14N, Xml(Dump(BODY, Body, BodyModel(ids))));
  }

  /** A network can deliver a document whose only signature value has been issued. */
  lemma IssuedDocumentIsDeliverable(issued: seq<Issue>, honest: set<Key>, doc: Element, i: Issue)
    requires i in issued && Genuine(i)
    requires forall n :: n in Nodes(doc) && n.text.SignatureText? ==> n.text == Signed(SignerOf(i), IssuedReferences(i))
    ensures Deliverable(issued, honest, doc)
  {
  }
}
