/** The identifiers that built documents carry: when the identifiers of an exchange are distinct, so are
    those of its documents (as4/core/references.py, as4/core/common.py). */
module Identifiers {
  import opened Terms
  import opened XmlMapping
  import opened Schemas
  import opened Documents
  import opened Dsig
  import opened Messages
  import opened Receipts
  import opened Builder
  import opened Envelopes
  import opened Authenticity
  import opened Construction
  import opened Readable
  import opened HonestMessages
  import opened HonestSecurity

  // ---------------------------------------------------------------- the identifiers of a dump, as a bag

  function BagOf(entries: seq<IdEntry>): multiset<string> {
    if entries == [] then multiset{} else multiset{entries[0].id} + BagOf(entries[1..])
  }

  lemma {:induction false} BagOfConcat(a: seq<IdEntry>, b: seq<IdEntry>)
    ensures BagOf(a + b) == BagOf(a) + BagOf(b)
  {
    if a == [] {
      assert a + b == b;
    } else {
      assert (a + b)[1..] == a[1..] + b;
      BagOfConcat(a[1..], b);
    }
  }

  lemma {:induction false} ListedIsInBag(entries: seq<IdEntry>, x: IdEntry)
    requires x in entries
    ensures x.id in BagOf(entries)
  {
    if x != entries[0] {
      ListedIsInBag(entries[1..], x);
    }
  }

  /** A list of entries whose bag of identifiers has no repetition is distinct. */
  lemma {:induction false} BagWithoutRepetition(entries: seq<IdEntry>)
    requires forall id :: BagOf(entries)[id] <= 1
    ensures DistinctIds(entries)
  {
    if entries != [] {
      var bag := BagOf(entries[1..]);
      assert forall id :: bag[id] <= BagOf(entries)[id];
      BagWithoutRepetition(entries[1..]);
      forall x | x in entries[1..]
        ensures x.id != entries[0].id
      {
        ListedIsInBag(entries[1..], x);
        assert bag[x.id] >= 1;
      }
      RestDistinct(entries);
    }
  }

  predicate CarriesId(n: AttributeName, m: Model) {
    NamesAnId(n) && n in m.attributes && m.attributes[n] != ""
  }

  /** The identifiers that dumping a model writes, at every depth. */
  function IdsIn(s: Schema, m: Model): multiset<string>
    decreases s, m, 0
  {
    match s
    case End => multiset{}
    case AttributeField(n, _, rest) =>
      (if CarriesId(n, m) then multiset{m.attributes[n]} else multiset{}) + IdsIn(rest, m)
    case TextField(_, rest) => IdsIn(rest, m)
    case ChildField(t, _, schema, rest) => IdsInAll(schema, Children(m, t)) + IdsIn(rest, m)
  }

  function IdsInAll(s: Schema, ms: seq<Model>): multiset<string>
    decreases s, ms, 0
  {
    if ms == [] then multiset{} else IdsIn(s, ms[0]) + IdsInAll(s, ms[1..])
  }

  lemma {:induction false} IdsOfConcat(a: seq<Element>, b: seq<Element>)
    ensures BagOf(IdsOfAll(a + b)) == BagOf(IdsOfAll(a)) + BagOf(IdsOfAll(b))
  {
    if a == [] {
      assert a + b == b;
    } else {
      assert (a + b)[1..] == a[1..] + b;
      IdsOfConcat(a[1..], b);
      BagOfConcat(IdAttributes(a[0]), IdsOfAll(a[1..] + b));
      BagOfConcat(IdAttributes(a[0]), IdsOfAll(a[1..]));
    }
  }

  /** What dumping the fields `s` of an element writes. */
  ghost function WrittenIds(s: Schema, m: Model, e: Element): multiset<string> {
    BagOf(OwnIds(e, DumpAttributes(s, m))) + BagOf(IdsOfAll(DumpChildren(s, m)))
  }

  lemma AttributeIds(s: Schema, m: Model, e: Element)
    requires s.AttributeField?
    ensures WrittenIds(s, m, e) == (if CarriesId(s.name, m) then multiset{m.attributes[s.name]} else multiset{})
            + WrittenIds(s.rest, m, e)
  {
    if s.name in m.attributes && m.attributes[s.name] != "" {
      OwnIdsFirst(e, Attribute(s.name, m.attributes[s.name]), DumpAttributes(s.rest, m));
    } else {
      assert DumpAttributes(s, m) == DumpAttributes(s.rest, m);
    }
  }

  lemma ChildIds(s: Schema, m: Model, e: Element)
    requires s.ChildField?
    ensures WrittenIds(s, m, e) == BagOf(IdsOfAll(DumpAll(s.schema, s.tag, Children(m, s.tag))))
            + WrittenIds(s.rest, m, e)
  {
    IdsOfConcat(DumpAll(s.schema, s.tag, Children(m, s.tag)), DumpChildren(s.rest, m));
  }

  lemma {:induction false} DumpedFieldIds(s: Schema, m: Model, e: Element)
    ensures WrittenIds(s, m, e) == IdsIn(s, m)
    decreases s, m, 0
  {
    match s
    case End =>
    case AttributeField(_, _, rest) =>
      DumpedFieldIds(rest, m, e);
      AttributeIds(s, m, e);
    case TextField(_, rest) => DumpedFieldIds(rest, m, e);
    case ChildField(t, _, schema, rest) =>
      DumpedFieldIds(rest, m, e);
      ChildIds(s, m, e);
      DumpedListIds(schema, t, Children(m, t));
  }

  lemma OwnIdsFirst(e: Element, a: Attribute, rest: seq<Attribute>)
    ensures BagOf(OwnIds(e, [a] + rest)) == (if NamesAnId(a.name) then multiset{a.value} else multiset{})
            + BagOf(OwnIds(e, rest))
  {
    assert ([a] + rest)[1..] == rest;
    BagOfConcat(if NamesAnId(a.name) then [IdEntry(a.value, e)] else [], OwnIds(e, rest));
  }

  lemma {:induction false} DumpedListIds(s: Schema, t: Tag, ms: seq<Model>)
    ensures BagOf(IdsOfAll(DumpAll(s, t, ms))) == IdsInAll(s, ms)
    decreases s, ms, 0
  {
    if ms != [] {
      var e := Dump(s, t, ms[0]);
      DumpedIds(s, t, ms[0]);
      DumpedListIds(s, t, ms[1..]);
      assert DumpAll(s, t, ms)[1..] == DumpAll(s, t, ms[1..]);
      BagOfConcat(IdAttributes(e), IdsOfAll(DumpAll(s, t, ms[1..])));
    }
  }

  /** The identifiers of a dumped tree are those that its model carries. */
  lemma {:induction false} DumpedIds(s: Schema, t: Tag, m: Model)
    ensures BagOf(IdAttributes(Dump(s, t, m))) == IdsIn(s, m)
    decreases s, m, 1
  {
    var e := Dump(s, t, m);
    DumpedFieldIds(s, m, e);
    BagOfConcat(OwnIds(e, e.attributes), IdsOfAll(e.children));
  }

  // ---------------------------------------------------------------- one field at a time

  lemma IdsSkip(f: Schema, m: Model)
    requires !f.End?
    requires f.AttributeField? ==> !CarriesId(f.name, m)
    requires f.ChildField? ==> Children(m, f.tag) == []
    ensures IdsIn(f, m) == IdsIn(f.rest, m)
  {
  }

  lemma IdsHere(f: Schema, m: Model)
    requires f.AttributeField? && CarriesId(f.name, m)
    ensures IdsIn(f, m) == multiset{m.attributes[f.name]} + IdsIn(f.rest, m)
  {
  }

  lemma IdsChild(f: Schema, m: Model, child: Model)
    requires f.ChildField? && Children(m, f.tag) == [child]
    ensures IdsIn(f, m) == IdsIn(f.schema, child) + IdsIn(f.rest, m)
  {
    assert IdsInAll(f.schema, [child]) == IdsIn(f.schema, child);
  }

  /** A class whose fields, at every depth, are never identifiers. */
  predicate NoIdFields(s: Schema)
    decreases s
  {
    match s
    case End => true
    case AttributeField(n, _, rest) => !NamesAnId(n) && NoIdFields(rest)
    case TextField(_, rest) => NoIdFields(rest)
    case ChildField(_, _, schema, rest) => NoIdFields(schema) && NoIdFields(rest)
  }

  lemma {:induction false} NoIdsIn(s: Schema, m: Model)
    requires NoIdFields(s)
    ensures IdsIn(s, m) == multiset{}
    decreases s, m, 0
  {
    if !s.End? {
      NoIdsIn(s.rest, m);
      if s.ChildField? {
        NoIdsInAll(s.schema, Children(m, s.tag));
      }
    }
  }

  lemma {:induction false} NoIdsInAll(s: Schema, ms: seq<Model>)
    requires NoIdFields(s)
    ensures IdsInAll(s, ms) == multiset{}
    decreases s, ms, 0
  {
    if ms != [] {
      NoIdsIn(s, ms[0]);
      NoIdsInAll(s, ms[1..]);
    }
  }

  lemma IdsNowhere(f: Schema, m: Model)
    requires f.ChildField? && NoIdFields(f.schema)
    ensures IdsIn(f, m) == IdsIn(f.rest, m)
  {
    NoIdsInAll(f.schema, Children(m, f.tag));
  }

  // ---------------------------------------------------------------- class by class

  function OwnId(n: AttributeName, m: Model): multiset<string> {
    if CarriesId(n, m) then multiset{m.attributes[n]} else multiset{}
  }

  /** A reference carries at most its own identifier. */
  lemma ReferenceIds(r: Model)
    ensures IdsIn(REFERENCE, r) == OwnId(PlainId, r)
  {
    IdsNowhere(REFERENCE, r);
    IdsNowhere(REFERENCE.rest, r);
    IdsNowhere(REFERENCE.rest.rest, r);
    NoIdsIn(REFERENCE.rest.rest.rest.rest, r);
  }

  lemma {:induction false} BuiltReferencesHaveNoId(references: seq<Model>)
    requires forall r | r in references :: PlainId !in r.attributes
    ensures IdsInAll(REFERENCE, references) == multiset{}
  {
    if references != [] {
      ReferenceIds(references[0]);
      BuiltReferencesHaveNoId(references[1..]);
    }
  }

  lemma SignedInfoHasNoId(references: seq<Model>)
    requires forall r | r in references :: PlainId !in r.attributes
    ensures IdsIn(SIGNED_INFO, SignedInfoModel(references)) == multiset{}
  {
    var m := SignedInfoModel(references);
    IdsNowhere(SIGNED_INFO, m);
    IdsNowhere(SIGNED_INFO.rest, m);
    BuiltReferencesHaveNoId(references);
    assert Children(m, Reference) == references;
    IdsSkip(SIGNED_INFO.rest.rest.rest, m);
  }

  lemma TokenReferenceIds(m: Model)
    ensures IdsIn(SECURITY_TOKEN_REFERENCE, m) == OwnId(WsuId, m)
  {
    var f := SECURITY_TOKEN_REFERENCE;
    IdsSkip(f.rest, m);
    IdsNowhere(f.rest.rest, m);
    IdsSkip(f.rest.rest.rest, m);
  }

  lemma KeyInfoIds(m: Model, tokenReference: Model)
    requires Children(m, SecurityTokenReference) == [tokenReference]
    ensures IdsIn(KEY_INFO, m) == OwnId(PlainId, m) + OwnId(WsuId, tokenReference)
  {
    TokenReferenceIds(tokenReference);
    IdsChild(KEY_INFO.rest, m, tokenReference);
  }

  lemma SignatureFieldIds(f: Schema, m: Model, signedInfo: Model, keyInfo: Model)
    requires f == SIGNATURE && Children(m, SignedInfo) == [signedInfo] && Children(m, KeyInfo) == [keyInfo]
    requires |Children(m, SignatureValue)| == 1 && Child(m, SignatureValue).attributes == map[]
    requires IdsIn(SIGNED_INFO, signedInfo) == multiset{} && CarriesId(PlainId, m)
    ensures IdsIn(f, m) == IdsIn(KEY_INFO, keyInfo) + multiset{m.attributes[PlainId]}
  {
    var value := Child(m, SignatureValue);
    IdsChild(f, m, signedInfo);
    IdsChild(f.rest, m, value);
    IdsSkip(f.rest.schema.rest, value);
    IdsChild(f.rest.rest, m, keyInfo);
    IdsHere(f.rest.rest.rest, m);
  }

  /** The identifiers a signature carries. */
  predicate SignatureNamed(ids: References) {
    ids.signatureId != "" && ids.keyInfoId != "" && ids.tokenReferenceId != ""
  }

  function SignatureIdBag(ids: References): multiset<string> {
    multiset{ids.keyInfoId} + multiset{ids.tokenReferenceId} + multiset{ids.signatureId}
  }

  lemma SignatureIds(ids: References, key: Key, references: seq<Model>)
    requires SignatureNamed(ids) && forall r | r in references :: PlainId !in r.attributes
    ensures IdsIn(SIGNATURE, SignatureOf(ids, key, references)) == SignatureIdBag(ids)
  {
    var m := SignatureOf(ids, key, references);
    var token := TokenReferenceModel("#" + ids.signatureTokenId);
    var tokenReference := Model(map[WsuId := ids.tokenReferenceId], None, map[TokenReference := [token]]);
    var keyInfo := Model(map[PlainId := ids.keyInfoId], None, map[SecurityTokenReference := [tokenReference]]);
    SignedInfoHasNoId(references);
    KeyInfoIds(keyInfo, tokenReference);
    SignatureFieldIds(SIGNATURE, m, SignedInfoModel(references), keyInfo);
  }

  lemma TokenIds(tokenId: string, certificate: Certificate)
    requires tokenId != ""
    ensures IdsIn(BINARY_SECURITY_TOKEN, TokenModel(tokenId, certificate)) == multiset{tokenId}
  {
    var m := TokenModel(tokenId, certificate);
    IdsSkip(BINARY_SECURITY_TOKEN, m);
    IdsSkip(BINARY_SECURITY_TOKEN.rest, m);
    IdsHere(BINARY_SECURITY_TOKEN.rest.rest, m);
    IdsSkip(BINARY_SECURITY_TOKEN.rest.rest.rest, m);
  }

  lemma SignalSecurityFieldIds(f: Schema, m: Model, token: Model, signature: Model)
    requires f == SECURITY && Children(m, BinarySecurityToken) == [token] && Children(m, Signature) == [signature]
    requires Children(m, EncryptedKey) == [] && Children(m, EncryptedData) == []
    ensures IdsIn(f, m) == IdsIn(BINARY_SECURITY_TOKEN, token) + IdsIn(SIGNATURE, signature)
  {
    IdsChild(f, m, token);
    IdsSkip(f.rest, m);
    IdsSkip(f.rest.rest, m);
    IdsChild(f.rest.rest.rest, m, signature);
    IdsSkip(f.rest.rest.rest.rest, m);
  }

  lemma SignalSecurityIds(ids: References, own: Credentials, references: seq<Model>)
    requires SignatureNamed(ids) && ids.signatureTokenId != "" && forall r | r in references :: PlainId !in r.attributes
    ensures IdsIn(SECURITY, SignalSecurityModel(ids, own, references))
         == multiset{ids.signatureTokenId} + SignatureIdBag(ids)
  {
    SignalSecurityParts(ids, own, references);
    TokenIds(ids.signatureTokenId, own.certificate);
    SignatureIds(ids, own.key, references);
    SignalSecurityFieldIds(SECURITY, SignalSecurityModel(ids, own, references),
                           TokenModel(ids.signatureTokenId, own.certificate),
                           SignatureOf(ids, own.key, references));
  }

  lemma EncryptionHasNoId()
    ensures NoIdFields(ENCRYPTION_METHOD) && NoIdFields(CIPHER_DATA) && NoIdFields(REFERENCE_LIST)
  {
  }

  /** The fields that EncryptedKey and EncryptedData share carry one identifier when their KeyInfo has none. */
  lemma EncryptedIds(f: Schema, m: Model, keyInfo: Model)
    requires EncryptedShape(f) && f.rest.rest.rest.name == PlainId && CarriesId(PlainId, m)
    requires !NamesAnId(f.rest.rest.rest.rest.name) && !NamesAnId(f.rest.rest.rest.rest.rest.name)
             && !NamesAnId(f.rest.rest.rest.rest.rest.rest.name)
    requires Children(m, KeyInfo) == [keyInfo] && IdsIn(KEY_INFO, keyInfo) == multiset{}
    ensures IdsIn(f, m) == multiset{m.attributes[PlainId]} + IdsIn(AfterAttributes(f), m)
  {
    EncryptionHasNoId();
    var attributes := f.rest.rest.rest;
    IdsNowhere(f, m);
    IdsChild(f.rest, m, keyInfo);
    IdsNowhere(f.rest.rest, m);
    IdsHere(attributes, m);
    IdsSkip(attributes.rest, m);
    IdsSkip(attributes.rest.rest, m);
    IdsSkip(attributes.rest.rest.rest, m);
  }

  lemma EncryptedAttributes(f: Schema)
    requires f == ENCRYPTED_KEY || f == ENCRYPTED_TYPE
    ensures EncryptedShape(f) && f.rest.rest.rest.name == PlainId
    ensures !NamesAnId(f.rest.rest.rest.rest.name) && !NamesAnId(f.rest.rest.rest.rest.rest.name)
    ensures !NamesAnId(f.rest.rest.rest.rest.rest.rest.name)
  {
    EncryptedHaveShape();
  }

  lemma EncryptedKeyIds(i: BuildInput)
    requires i.ids.encryptedKeyId != ""
    ensures IdsIn(ENCRYPTED_KEY, EncryptedKeyModel(i)) == multiset{i.ids.encryptedKeyId}
  {
    var m := EncryptedKeyModel(i);
    EncryptedKeyParts(i);
    EncryptedAttributes(ENCRYPTED_KEY);
    EncryptedHaveShape();
    EncryptionHasNoId();
    KeyInfoIds(TokenKeyInfo(KeyTokenReference(i)), KeyTokenReference(i));
    EncryptedIds(ENCRYPTED_KEY, m, TokenKeyInfo(KeyTokenReference(i)));
    IdsNowhere(AfterAttributes(ENCRYPTED_KEY), m);
  }

  lemma EncryptedDataIds(encryptedKeyId: string, attachmentId: string, id: string)
    requires id != ""
    ensures IdsIn(ENCRYPTED_TYPE, EncryptedDataModel(encryptedKeyId, attachmentId, id)) == multiset{id}
  {
    var m := EncryptedDataModel(encryptedKeyId, attachmentId, id);
    EncryptedDataParts(encryptedKeyId, attachmentId, id);
    EncryptedAttributes(ENCRYPTED_TYPE);
    EncryptedHaveShape();
    KeyInfoIds(TokenKeyInfo(DataTokenReference(encryptedKeyId)), DataTokenReference(encryptedKeyId));
    EncryptedIds(ENCRYPTED_TYPE, m, TokenKeyInfo(DataTokenReference(encryptedKeyId)));
  }

  lemma UserSecurityFieldIds(f: Schema, m: Model, token: Model, token': Model, key: Model, data: Model,
                             signature: Model)
    requires f.ChildField? && f.tag == BinarySecurityToken && f.schema == BINARY_SECURITY_TOKEN
    requires f.rest.ChildField? && f.rest.tag == EncryptedKey && f.rest.schema == ENCRYPTED_KEY
    requires f.rest.rest.ChildField? && f.rest.rest.tag == EncryptedData && f.rest.rest.schema == ENCRYPTED_TYPE
    requires f.rest.rest.rest.ChildField? && f.rest.rest.rest.tag == Signature && f.rest.rest.rest.schema == SIGNATURE
    requires f.rest.rest.rest.rest == AttributeField(MustUnderstand, false, End)
    requires Children(m, BinarySecurityToken) == [token, token'] && Children(m, Signature) == [signature]
    requires Children(m, EncryptedKey) == [key] && Children(m, EncryptedData) == [data]
    ensures IdsIn(f, m) == IdsIn(BINARY_SECURITY_TOKEN, token) + IdsIn(BINARY_SECURITY_TOKEN, token')
            + IdsIn(ENCRYPTED_KEY, key)
                           + IdsIn(ENCRYPTED_TYPE, data) + IdsIn(SIGNATURE, signature)
  {
    IdsPair(f, m, token, token');
    IdsChild(f.rest, m, key);
    IdsChild(f.rest.rest, m, data);
    IdsChild(f.rest.rest.rest, m, signature);
    IdsSkip(f.rest.rest.rest.rest, m);
    FiveBags(IdsIn(BINARY_SECURITY_TOKEN, token), IdsIn(BINARY_SECURITY_TOKEN, token'), IdsIn(ENCRYPTED_KEY, key),
             IdsIn(ENCRYPTED_TYPE, data), IdsIn(SIGNATURE, signature));
  }

  lemma FiveBags(a: multiset<string>, b: multiset<string>, c: multiset<string>, d: multiset<string>,
                 e: multiset<string>)
    ensures a + b + (c + (d + (e + multiset{}))) == a + b + c + d + e
  {
  }

  lemma IdsPair(f: Schema, m: Model, first: Model, second: Model)
    requires f.ChildField? && Children(m, f.tag) == [first, second]
    ensures IdsIn(f, m) == IdsIn(f.schema, first) + IdsIn(f.schema, second) + IdsIn(f.rest, m)
  {
    assert [first, second][1..] == [second];
    assert IdsInAll(f.schema, [second]) == IdsIn(f.schema, second);
    assert IdsInAll(f.schema, [first, second]) == IdsIn(f.schema, first) + IdsInAll(f.schema, [second]);
  }

  /** The identifiers that a user message's header carries. */
  function UserSecurityIdBag(ids: References): multiset<string>
    requires |ids.attachments| == 1
  {
    multiset{ids.encryptedKeyTokenId} + multiset{ids.signatureTokenId} + multiset{ids.encryptedKeyId}
    + multiset{ids.attachments[0].1} + SignatureIdBag(ids)
  }

  lemma UserSecurityIds(i: BuildInput, references: seq<Model>)
    requires HonestIds(i.ids) && SignatureNamed(i.ids) && i.ids.encryptedKeyId != ""
    requires forall r | r in references :: PlainId !in r.attributes
    ensures IdsIn(SECURITY, UserSecurityModel(i, references)) == UserSecurityIdBag(i.ids)
  {
    var attachment := i.ids.attachments[0];
    UserSecurityParts(i, references);
    SecurityHasShape();
    UserSecurityFieldIds(SECURITY, UserSecurityModel(i, references),
                         TokenModel(i.ids.encryptedKeyTokenId, i.remote.certificate),
                         TokenModel(i.ids.signatureTokenId, i.local.credentials.certificate), EncryptedKeyModel(i),
                         EncryptedDataModel(i.ids.encryptedKeyId, attachment.0, attachment.1),
                         SignatureOf(i.ids, i.local.credentials.key, references));
    UserSecurityPartIds(i, references);
  }

  lemma UserSecurityPartIds(i: BuildInput, references: seq<Model>)
    requires HonestIds(i.ids) && SignatureNamed(i.ids) && i.ids.encryptedKeyId != ""
    requires forall r | r in references :: PlainId !in r.attributes
    ensures var attachment := i.ids.attachments[0];
            IdsIn(BINARY_SECURITY_TOKEN, TokenModel(i.ids.encryptedKeyTokenId, i.remote.certificate))
            + IdsIn(BINARY_SECURITY_TOKEN, TokenModel(i.ids.signatureTokenId, i.local.credentials.certificate))
            + IdsIn(ENCRYPTED_KEY, EncryptedKeyModel(i))
            + IdsIn(ENCRYPTED_TYPE, EncryptedDataModel(i.ids.encryptedKeyId, attachment.0, attachment.1))
            + IdsIn(SIGNATURE, SignatureOf(i.ids, i.local.credentials.key, references))
            == UserSecurityIdBag(i.ids)
  {
    TokenIds(i.ids.encryptedKeyTokenId, i.remote.certificate);
    TokenIds(i.ids.signatureTokenId, i.local.credentials.certificate);
    EncryptedKeyIds(i);
    EncryptedDataIds(i.ids.encryptedKeyId, i.ids.attachments[0].0, i.ids.attachments[0].1);
    SignatureIds(i.ids, i.local.credentials.key, references);
  }

  // ---------------------------------------------------------------- header blocks

  lemma ErrorHasNoId()
    ensures NoIdFields(ERROR) && NoIdFields(MESSAGE_INFO)
  {
  }

  lemma UserMessageHasNoId()
    ensures NoIdFields(USER_MESSAGE)
  {
  }

  /** Header blocks: what their signals carry, and their own identifier. */
  lemma BlockIds(f: Schema, m: Model, inside: multiset<string>)
    requires MessagingShape(f) && CarriesId(WsuId, m)
    requires IdsInAll(f.schema, Children(m, SignalMessage)) == inside
    requires IdsInAll(USER_MESSAGE, Children(m, UserMessage)) == multiset{}
    ensures IdsIn(f, m) == inside + multiset{m.attributes[WsuId]}
  {
    IdsSkip(f.rest.rest.rest, m);
    IdsHere(f.rest.rest, m);
    assert IdsIn(f.rest, m) == IdsIn(f.rest.rest, m);
  }

  lemma UserMessagingIds(i: BuildInput)
    requires i.ids.messagingId != ""
    ensures IdsIn(MESSAGING, UserMessagingModel(i)) == multiset{i.ids.messagingId}
  {
    UserMessagingBlock(i);
    UserBlockIds(UserMessagingModel(i));
  }

  lemma UserBlockIds(m: Model)
    requires SignalMessage !in m.children && CarriesId(WsuId, m)
    ensures IdsIn(MESSAGING, m) == multiset{m.attributes[WsuId]}
  {
    MessagingHasShape();
    UserMessageHasNoId();
    NoIdsInAll(USER_MESSAGE, Children(m, UserMessage));
    BlockIds(MESSAGING, m, multiset{});
  }

  lemma {:induction false} PartIds(references: seq<Model>, parts: seq<Model>)
    requires |parts| == |references| && forall i :: 0 <= i < |parts| ==>
               Children(parts[i], Reference) == [references[i]]
    ensures IdsInAll(NR_PART, parts) == IdsInAll(REFERENCE, references)
  {
    if parts != [] {
      IdsChild(NR_PART, parts[0], references[0]);
      PartIds(references[1..], parts[1..]);
    }
  }

  lemma ReceiptIds(references: seq<Model>)
    ensures IdsIn(RECEIPT, ReceiptModel(references)) == IdsInAll(REFERENCE, references)
  {
    var m := ReceiptModel(references);
    ReceiptModelAcknowledges(references);
    PartsHold(references);
    PartIds(references, PartModels(references));
    IdsChild(RECEIPT, m, Child(m, NonRepudiationInformation));
  }

  lemma SignalFieldIds(f: Schema, s: Model, receipts: seq<Model>)
    requires f == SIGNAL_MESSAGE && Children(s, Receipt) == receipts
    ensures IdsIn(f, s) == IdsInAll(RECEIPT, receipts)
  {
    ErrorHasNoId();
    IdsNowhere(f, s);
    IdsNowhere(f.rest, s);
    IdsNowhere(f.rest.rest.rest, s);
  }

  /** The identifiers that the answer to a message copies: those of its references, into a receipt only. */
  function CopiedIds(m: Message): multiset<string> {
    if m.error.Some? then multiset{} else IdsInAll(REFERENCE, SignatureReferences(m))
  }

  lemma SignalMessageIds(m: Message, ids: References, now: Text)
    ensures IdsIn(SIGNAL_MESSAGE, SignalMessageModel(m, ids, now)) == CopiedIds(m)
  {
    SignalParts(m, ids, now);
    var receipts := if m.error.None? then [ReceiptModel(SignatureReferences(m))] else [];
    ReceiptIds(SignatureReferences(m));
    assert IdsInAll(RECEIPT, [ReceiptModel(SignatureReferences(m))])
        == IdsIn(RECEIPT, ReceiptModel(SignatureReferences(m)));
    SignalFieldIds(SIGNAL_MESSAGE, SignalMessageModel(m, ids, now), receipts);
  }

  lemma SignalMessagingIds(m: Message, ids: References, now: Text)
    requires ids.messagingId != ""
    ensures IdsIn(MESSAGING, SignalMessagingModel(m, ids, now)) == CopiedIds(m) + multiset{ids.messagingId}
  {
    var b := SignalMessagingModel(m, ids, now);
    MessagingHasShape();
    SignalMessageIds(m, ids, now);
    assert Children(b, SignalMessage) == [SignalMessageModel(m, ids, now)] && Children(b, UserMessage) == [];
    assert IdsInAll(SIGNAL_MESSAGE, [SignalMessageModel(m, ids, now)]) == CopiedIds(m);
    BlockIds(MESSAGING, b, CopiedIds(m));
  }

  // ---------------------------------------------------------------- documents

  lemma BodyIds(ids: References)
    requires ids.bodyId != ""
    ensures IdsIn(BODY, BodyModel(ids)) == multiset{ids.bodyId}
  {
    IdsHere(BODY, BodyModel(ids));
  }

  lemma EnvelopeIds(security: Model, messaging: Model, ids: References)
    requires ids.bodyId != ""
    ensures IdsIn(ENVELOPE, EnvelopeModel(security, messaging, ids))
         == IdsIn(SECURITY, security) + IdsIn(MESSAGING, messaging) + multiset{ids.bodyId}
  {
    var m, header := EnvelopeModel(security, messaging, ids), HeaderModel(security, messaging);
    EnvelopeChildren(security, messaging, ids);
    BodyIds(ids);
    IdsChild(ENVELOPE, m, header);
    IdsChild(ENVELOPE.rest, m, BodyModel(ids));
    IdsChild(HEADER, header, security);
    IdsChild(HEADER.rest, header, messaging);
  }

  predicate NoRepetition(bag: multiset<string>) {
    forall id | id in bag :: bag[id] == 1
  }

  lemma {:induction false} DistinctHaveNoRepetition(entries: seq<IdEntry>)
    requires DistinctIds(entries)
    ensures NoRepetition(BagOf(entries))
  {
    if entries != [] {
      RestDistinct(entries);
      DistinctHaveNoRepetition(entries[1..]);
      InBagIsListed(entries[1..]);
    }
  }

  lemma {:induction false} InBagIsListed(entries: seq<IdEntry>)
    ensures forall id | id in BagOf(entries) :: exists x :: x in entries && x.id == id
  {
    if entries != [] {
      InBagIsListed(entries[1..]);
      assert entries == [entries[0]] + entries[1..];
      forall id | id in BagOf(entries)
        ensures exists x :: x in entries && x.id == id
      {
        if id == entries[0].id {
          assert entries[0] in entries;
        } else {
          assert id in BagOf(entries[1..]);
          var x :| x in entries[1..] && x.id == id;
          assert x in entries;
        }
      }
    }
  }

  /** The identifiers of a built document are distinct exactly when those of its parts have no repetition. */
  lemma DocumentIdsAreDistinct(security: Model, messaging: Model, ids: References, bag: multiset<string>)
    requires ids.bodyId != "" && bag == IdsIn(SECURITY, security) + IdsIn(MESSAGING, messaging) + multiset{ids.bodyId}
    ensures DistinctIds(IdAttributes(EnvelopeElement(security, messaging, ids))) <==> NoRepetition(bag)
  {
    var entries := IdAttributes(EnvelopeElement(security, messaging, ids));
    EnvelopeIds(security, messaging, ids);
    DumpedIds(ENVELOPE, Envelope, EnvelopeModel(security, messaging, ids));
    if NoRepetition(bag) {
      BagWithoutRepetition(entries);
    }
    if DistinctIds(entries) {
      DistinctHaveNoRepetition(entries);
    }
  }

  /** A user message's identifiers: none empty, no two equal. */
  predicate DistinctUserIds(ids: References) {
    && HonestIds(ids) && SignatureNamed(ids) && ids.encryptedKeyId != ""
    && NoRepetition(UserSecurityIdBag(ids) + multiset{ids.messagingId} + multiset{ids.bodyId})
  }

  /** A signal's own identifiers. */
  function SignalIdBag(ids: References): multiset<string> {
    multiset{ids.signatureTokenId} + SignatureIdBag(ids) + multiset{ids.messagingId} + multiset{ids.bodyId}
  }

  predicate SignalNamed(ids: References) {
    SignatureNamed(ids) && ids.signatureTokenId != "" && ids.messagingId != "" && ids.bodyId != ""
  }

  /** A signal's identifiers: none empty, no two equal. */
  predicate DistinctSignalIds(ids: References) {
    SignalNamed(ids) && NoRepetition(SignalIdBag(ids))
  }

  lemma UserDocumentIdsAreDistinct(i: BuildInput, references: seq<Model>)
    requires DistinctUserIds(i.ids) && forall r | r in references :: PlainId !in r.attributes
    ensures DistinctIds(IdAttributes(EnvelopeElement(UserSecurityModel(i, references), UserMessagingModel(i), i.ids)))
  {
    UserSecurityIds(i, references);
    UserMessagingIds(i);
    DocumentIdsAreDistinct(UserSecurityModel(i, references), UserMessagingModel(i), i.ids,
                           UserSecurityIdBag(i.ids) + multiset{i.ids.messagingId} + multiset{i.ids.bodyId});
  }

  lemma SignalDocumentIdsAreExact(m: Message, own: Credentials, ids: References, now: Text)
    requires SignalNamed(ids)
    ensures DistinctIds(IdAttributes(SignalDocument(m, own, ids, now)))
       <==> NoRepetition(SignalIdBag(ids) + CopiedIds(m))
  {
    var security := multiset{ids.signatureTokenId} + SignatureIdBag(ids);
    SignalSecurityIds(ids, own, SignalReferences(m, ids, now));
    SignalMessagingIds(m, ids, now);
    DocumentIdsAreDistinct(SecurityModelOf(m, own, ids, now), SignalMessagingModel(m, ids, now), ids,
                           security + (CopiedIds(m) + multiset{ids.messagingId}) + multiset{ids.bodyId});
    Reordered(security, CopiedIds(m), multiset{ids.messagingId}, multiset{ids.bodyId});
  }

  lemma Reordered(a: multiset<string>, b: multiset<string>, c: multiset<string>, d: multiset<string>)
    ensures a + (b + c) + d == a + c + d + b
  {
  }

  lemma NoRepetitionInSum(a: multiset<string>, b: multiset<string>)
    ensures NoRepetition(a + b) <==> NoRepetition(a) && NoRepetition(b) && forall id :: id in a ==> id !in b
  {
    if NoRepetition(a + b) {
      forall id | id in a
        ensures a[id] == 1 && id !in b
      {
        assert id in a + b;
      }
      forall id | id in b
        ensures b[id] == 1
      {
        assert id in a + b;
      }
    }
  }

  /** The identifiers of a signal are distinct when those of its exchange are and a receipt copies none. */
  lemma SignalDocumentIdsAreDistinct(m: Message, own: Credentials, ids: References, now: Text)
    requires DistinctSignalIds(ids)
    requires (m.error.None? ==> forall r | r in SignatureReferences(m) :: PlainId !in r.attributes)
    ensures DistinctIds(IdAttributes(SignalDocument(m, own, ids, now)))
  {
    if m.error.None? {
      BuiltReferencesHaveNoId(SignatureReferences(m));
    }
    SignalDocumentIdsAreExact(m, own, ids, now);
    assert SignalIdBag(ids) + multiset{} == SignalIdBag(ids);
  }

  // ---------------------------------------------------------------- identifiers of loaded references

  lemma {:induction false} CopiedIsListed(copied: map<AttributeName, string>,
                                          attributes: seq<Attribute>, n: AttributeName)
    requires n in CopyInto(copied, attributes)
    ensures (n in copied && copied[n] == CopyInto(copied, attributes)[n])
         || Attribute(n, CopyInto(copied, attributes)[n]) in attributes
    decreases |attributes|
  {
    if attributes != [] {
      CopiedIsListed(copied[attributes[0].name := attributes[0].value], attributes[1..], n);
      assert attributes == [attributes[0]] + attributes[1..];
    }
  }

  lemma InBag(id: string, bag: multiset<string>)
    requires id in bag
    ensures multiset{id} <= bag
  {
  }

  lemma LoadedIdIsOwn(e: Element)
    requires Load(REFERENCE, e).Ok?
    ensures IdsIn(REFERENCE, Load(REFERENCE, e).value) <= BagOf(IdAttributes(e))
  {
    var r := Load(REFERENCE, e).value;
    ReferenceIds(r);
    if CarriesId(PlainId, r) {
      ProjectAttributes(REFERENCE, ToDict(e), PlainId);
      CopiedIsListed(map[], e.attributes, PlainId);
      OwnIdIsListed(e, e.attributes, Attribute(PlainId, r.attributes[PlainId]));
      ListedIsInBag(IdAttributes(e), IdEntry(r.attributes[PlainId], e));
      InBag(r.attributes[PlainId], BagOf(IdAttributes(e)));
    }
  }

  lemma {:induction false} LoadedIdsAreOwn(es: seq<Element>, references: seq<Model>)
    requires |es| == |references| && forall k :: 0 <= k < |es| ==> Load(REFERENCE, es[k]) == Ok(references[k])
    ensures IdsInAll(REFERENCE, references) <= BagOf(IdsOfAll(es))
  {
    if es != [] {
      LoadedIdIsOwn(es[0]);
      LoadedIdsAreOwn(es[1..], references[1..]);
      BagOfConcat(IdAttributes(es[0]), IdsOfAll(es[1..]));
    }
  }

  lemma {:induction false} TaggedIds(es: seq<Element>, t: Tag)
    ensures BagOf(IdsOfAll(Tagged(es, t))) <= BagOf(IdsOfAll(es))
  {
    if es != [] {
      var first := if es[0].tag == t then [es[0]] else [];
      TaggedIds(es[1..], t);
      IdsOfConcat(first, Tagged(es[1..], t));
      IdsOfConcat([es[0]], es[1..]);
      assert [es[0]] + es[1..] == es && Tagged(es, t) == first + Tagged(es[1..], t);
    }
  }

  lemma ChildBag(es: seq<Element>, e: Element)
    requires e in es
    ensures BagOf(IdAttributes(e)) <= BagOf(IdsOfAll(es))
  {
    var k :| 0 <= k < |es| && es[k] == e;
    IdsOfConcat(es[..k], es[k..]);
    assert es[..k] + es[k..] == es;
    BagOfConcat(IdAttributes(e), IdsOfAll(es[k..][1..]));
  }

  lemma FirstTaggedBag(e: Element, t: Tag)
    ensures BagOf(IdAttributes(FirstTagged(e, t))) <= BagOf(IdAttributes(e))
  {
    TaggedAreChildren(e.children, t);
    if Tagged(e.children, t) != [] {
      ChildBag(e.children, FirstTagged(e, t));
      BagOfConcat(OwnIds(e, e.attributes), IdsOfAll(e.children));
    }
  }

  /** The identifiers of a loaded signature's references are among the document's. */
  lemma LoadedReferencesAreOwn(doc: Element)
    requires Load(ENVELOPE, doc).Ok? && OptionalChild(SecurityOf(Load(ENVELOPE, doc).value), Signature).Some?
    ensures IdsInAll(REFERENCE, ReferencesIn(Load(ENVELOPE, doc).value)) <= BagOf(IdAttributes(doc))
  {
    var header := FirstTagged(doc, Header);
    var security := FirstTagged(header, Security);
    var info := SignedInfoIn(doc);
    SignatureIsLoaded(doc);
    SignedInfoFields();
    LoadedChildren(SIGNED_INFO, info, Reference);
    LoadedIdsAreOwn(Tagged(info.children, Reference), ReferencesIn(Load(ENVELOPE, doc).value));
    TaggedIds(info.children, Reference);
    BagOfConcat(OwnIds(info, info.attributes), IdsOfAll(info.children));
    FirstTaggedBag(doc, Header);
    FirstTaggedBag(header, Security);
    FirstTaggedBag(security, Signature);
    FirstTaggedBag(SignatureIn(doc), SignedInfo);
  }

  lemma NoRepetitionInPart(part: multiset<string>, bag: multiset<string>)
    requires part <= bag && NoRepetition(bag)
    ensures NoRepetition(part)
  {
    forall id | id in part
      ensures part[id] == 1
    {
      assert part[id] <= bag[id];
    }
  }

  /** The references of an indexed document carry distinct identifiers. */
  lemma LoadedIdsAreDistinct(doc: Element)
    requires Load(ENVELOPE, doc).Ok? && IndexById(doc).Ok?
    ensures NoRepetition(IdsInAll(REFERENCE, ReferencesIn(Load(ENVELOPE, doc).value)))
  {
    if OptionalChild(SecurityOf(Load(ENVELOPE, doc).value), Signature).Some? {
      IndexIsExact(doc);
      DistinctHaveNoRepetition(IdAttributes(doc));
      LoadedReferencesAreOwn(doc);
      NoRepetitionInPart(IdsInAll(REFERENCE, ReferencesIn(Load(ENVELOPE, doc).value)), BagOf(IdAttributes(doc)));
    }
  }

  /** The references carry none of these identifiers. */
  predicate CarryNone(references: seq<Model>, bag: multiset<string>) {
    forall r | r in references :: CarriesId(PlainId, r) ==> r.attributes[PlainId] !in bag
  }

  lemma {:induction false} CarriedIds(references: seq<Model>, bag: multiset<string>)
    ensures CarryNone(references, bag) <==> forall id :: id in IdsInAll(REFERENCE, references) ==> id !in bag
  {
    if references != [] {
      CarriedIds(references[1..], bag);
      ReferenceIds(references[0]);
      assert references == [references[0]] + references[1..];
      assert IdsInAll(REFERENCE, references) == OwnId(PlainId, references[0]) + IdsInAll(REFERENCE, references[1..]);
      if CarryNone(references, bag) {
        assert references[0] in references;
      }
    }
  }
}
