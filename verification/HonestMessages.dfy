/** Built header blocks and business documents are well-formed, so their receiver reads exactly what was
    built (as4/profiles/peppol/message.py). */
module HonestMessages {
  import opened Terms
  import opened XmlMapping
  import opened Schemas
  import opened Dsig
  import opened Messages
  import opened DocumentIdentifier
  import opened Peppol
  import opened Receipts
  import opened Builder
  import opened Envelopes

  // ---------------------------------------------------------------- what honest values are

  predicate TidyString(s: string) {
    Tidy(Plain(s))
  }

  predicate TidyArguments(a: BuilderArgs) {
    && TidyString(a.sender) && TidyString(a.recipient) && TidyString(a.process) && TidyString(a.country)
    && TidyString(a.instanceId) && TidyString(Print(a.documentType)) && TidyString(RootNamespace(a.documentType))
    && TidyString(a.documentType.version)
  }

  predicate PeppolParty(p: PartyIdentity) {
    Tidy(p.partyId) && p.partyType == Some(PARTY_IDENTIFIER_TYPE)
  }

  // ---------------------------------------------------------------- one field at a time

  lemma FieldsChild(f: Schema, m: Model, child: Model)
    requires f.ChildField? && Children(m, f.tag) == [child] && WellFormed(f.schema, child)
    requires WellFormedFields(f.rest, m)
    ensures WellFormedFields(f, m)
  {
    assert AllWellFormed(f.schema, [child]);
  }

  lemma FieldsAbsent(f: Schema, m: Model)
    requires f.ChildField? && f.tag !in m.children && (f.multiplicity.AtMostOne? || f.multiplicity.AnyNumber?)
    requires WellFormedFields(f.rest, m)
    ensures WellFormedFields(f, m)
  {
  }

  lemma FieldsPair(f: Schema, m: Model, first: Model, second: Model)
    requires f.ChildField? && !Single(f) && Children(m, f.tag) == [first, second]
    requires WellFormed(f.schema, first) && WellFormed(f.schema, second) && WellFormedFields(f.rest, m)
    ensures WellFormedFields(f, m)
  {
    assert [first, second][1..] == [second];
    assert AllWellFormed(f.schema, [second]);
  }

  lemma TextIsWellFormed(t: Text)
    requires Tidy(t)
    ensures WellFormed(REQUIRED_TEXT, TextModel(t))
  {
  }

  // ---------------------------------------------------------------- the header block

  lemma MessageInfoIsWellFormed(now: Text, messageId: string)
    requires Tidy(now) && TidyString(messageId)
    ensures WellFormed(MESSAGE_INFO, MessageInfoModel(now, messageId, Plain("")))
  {
    TextIsWellFormed(now);
    TextIsWellFormed(Plain(messageId));
    assert MessageInfoModel(now, messageId, Plain("")).children
        == map[Timestamp := [TextModel(now)], MessageId := [TextModel(Plain(messageId))]];
    TwoOfThree(MESSAGE_INFO, MessageInfoModel(now, messageId, Plain("")), TextModel(now), TextModel(Plain(messageId)));
  }

  /** A class of two required children and an optional one, which is absent. */
  lemma TwoOfThree(f: Schema, m: Model, first: Model, second: Model)
    requires f.ChildField? && f.rest.ChildField? && f.rest.rest.ChildField? && f.rest.rest.rest.End?
    requires f.tag != f.rest.tag && f.rest.rest.tag !in {f.tag, f.rest.tag} && f.rest.rest.multiplicity.AtMostOne?
    requires m.attributes == map[] && m.text == None && m.children == map[f.tag := [first], f.rest.tag := [second]]
    requires WellFormed(f.schema, first) && WellFormed(f.rest.schema, second)
    ensures WellFormed(f, m)
  {
    FieldsAbsent(f.rest.rest, m);
    FieldsChild(f.rest, m, second);
    FieldsChild(f, m, first);
    FirstFields(f);
  }

  const PARTY_ID := TextField(false, AttributeField(TypeName, false, End))

  function PartyIdModel(p: PartyIdentity): Model
    requires PeppolParty(p)
  {
    Model(map[TypeName := PARTY_IDENTIFIER_TYPE], Some(p.partyId), map[])
  }

  lemma PartyIdIsWellFormed(p: PartyIdentity)
    requires PeppolParty(p)
    ensures WellFormed(PARTY_ID, PartyIdModel(p))
  {
    assert PARTY_IDENTIFIER_TYPE != "";
    assert WellFormedFields(PARTY_ID.rest, PartyIdModel(p));
  }

  lemma PartyIsWellFormed(p: PartyIdentity, role: string)
    requires PeppolParty(p) && TidyString(role)
    ensures WellFormed(PARTY, PartyModel(p, role))
  {
    PartyIdIsWellFormed(p);
    TextIsWellFormed(Plain(role));
    TwoChildren(PARTY, PartyModel(p, role), PartyIdModel(p), TextModel(Plain(role)));
  }

  /** A class of two required children and nothing else. */
  lemma TwoChildren(f: Schema, m: Model, first: Model, second: Model)
    requires f.ChildField? && f.rest.ChildField? && f.rest.rest.End? && f.tag != f.rest.tag
    requires m.attributes == map[] && m.text == None && m.children == map[f.tag := [first], f.rest.tag := [second]]
    requires WellFormed(f.schema, first) && WellFormed(f.rest.schema, second)
    ensures WellFormed(f, m)
  {
    FieldsChild(f.rest, m, second);
    FieldsChild(f, m, first);
    FirstFields(f);
  }

  lemma FirstFields(f: Schema)
    requires f.ChildField? && f.rest.ChildField? && f.tag != f.rest.tag
    ensures Declares(f, f.tag) && Declares(f, f.rest.tag)
  {
  }

  lemma PropertyIsWellFormed(name: string, value: string, propertyType: Option<string>)
    requires name != "" && TidyString(value) && (propertyType.Some? ==> propertyType.value != "")
    ensures WellFormed(PROPERTY, PropertyModel(name, value, propertyType))
  {
    assert WellFormedFields(PROPERTY.rest, PropertyModel(name, value, propertyType));
  }

  lemma PropertiesAreWellFormed(m: Model, first: Model, second: Model)
    requires m == Model(map[], None, map[Property := [first, second]])
    requires WellFormed(PROPERTY, first) && WellFormed(PROPERTY, second)
    ensures WellFormed(PROPERTIES, m)
  {
    FieldsPair(PROPERTIES, m, first, second);
  }

  lemma GzipIsTidy()
    ensures TidyString(GZIP) && TidyString("application/xml")
  {
    assert GZIP[0] == 'a' && GZIP[|GZIP| - 1] == 'p';
    TrimKeeps(GZIP);
    var xml := "application/xml";
    assert xml[0] == 'a' && xml[|xml| - 1] == 'l';
    TrimKeeps(xml);
  }

  lemma GzipPropertiesAreWellFormed()
    ensures WellFormed(PROPERTIES, GZIP_PROPERTIES)
  {
    GzipIsTidy();
    PropertyIsWellFormed("MimeType", "application/xml", None);
    PropertyIsWellFormed(COMPRESSION_TYPE, GZIP, None);
    PropertiesAreWellFormed(GZIP_PROPERTIES, PropertyModel("MimeType", "application/xml", None),
                            PropertyModel(COMPRESSION_TYPE, GZIP, None));
  }

  lemma PartInfoIsWellFormed(id: string)
    ensures WellFormed(PART_INFO, PartInfoModel(id))
  {
    GzipPropertiesAreWellFormed();
    PartInfoFields();
    PartInfoHref();
    PartInfoParts(id);
    PartInfoShape();
    PartWithProperties(PART_INFO, PartInfoModel(id), GZIP_PROPERTIES);
  }

  predicate PartShape(f: Schema) {
    && f.ChildField? && f.tag == PartSchema && f.multiplicity.AnyNumber?
    && f.rest.ChildField? && f.rest.tag == Description && f.rest.multiplicity.AnyNumber?
    && f.rest.rest.ChildField? && f.rest.rest.tag == PartProperties && f.rest.rest.schema == PROPERTIES
    && f.rest.rest.multiplicity.One?
    && f.rest.rest.rest == AttributeField(Href, false, End)
  }

  lemma PartInfoShape()
    ensures PartShape(PART_INFO)
  {
  }

  lemma PartInfoParts(id: string)
    ensures Children(PartInfoModel(id), PartProperties) == [GZIP_PROPERTIES]
    ensures PartInfoModel(id).children.Keys == {PartProperties} && PartInfoModel(id).attributes.Keys == {Href}
    ensures PartInfoModel(id).attributes[Href] != "" && PartInfoModel(id).text == None
  {
  }

  lemma DeclaredPart(f: Schema, m: Model)
    requires Declares(f, PartProperties) && HasAttribute(f, Href)
    requires m.children.Keys == {PartProperties} && m.attributes.Keys == {Href} && m.text == None
    ensures OnlyDeclared(f, m)
  {
    assert forall t | t in m.children :: t in m.children.Keys;
    assert forall n | n in m.attributes :: n in m.attributes.Keys;
  }

  lemma PartWithProperties(f: Schema, m: Model, properties: Model)
    requires PartShape(f) && Declares(f, PartProperties) && HasAttribute(f, Href)
    requires Children(m, PartProperties) == [properties] && WellFormed(PROPERTIES, properties)
    requires m.children.Keys == {PartProperties} && m.attributes.Keys == {Href} && m.text == None
    requires m.attributes[Href] != ""
    ensures WellFormed(f, m)
  {
    assert PartSchema !in m.children.Keys && Description !in m.children.Keys;
    AttributeFields(f.rest.rest.rest, m);
    FieldsChild(f.rest.rest, m, properties);
    FieldsAbsent(f.rest, m);
    FieldsAbsent(f, m);
    DeclaredPart(f, m);
  }

  lemma AttributeFields(f: Schema, m: Model)
    requires f.AttributeField? && f.rest.End? && !f.required && (f.name in m.attributes ==> m.attributes[f.name] != "")
    ensures WellFormedFields(f, m)
  {
  }

  lemma PayloadInfoIsWellFormed(id: string)
    ensures WellFormed(PAYLOAD_INFO, Model(map[], None, map[PartInfo := [PartInfoModel(id)]]))
  {
    PartInfoIsWellFormed(id);
    FieldsChild(PAYLOAD_INFO, Model(map[], None, map[PartInfo := [PartInfoModel(id)]]), PartInfoModel(id));
  }

  lemma TidyLiteral(s: string)
    requires s != "" && !IsSpace(s[0]) && !IsSpace(s[|s| - 1])
    ensures TidyString(s)
  {
    TrimKeeps(s);
  }

  /** The first character of a long literal is reached through its prefix. */
  lemma RolesAreTidy()
    ensures TidyString(INITIATOR) && TidyString(RESPONDER)
  {
    assert "http://docs.oasis-open.org/ebxml-msg"[0] == 'h';
    assert INITIATOR[0] == 'h' && INITIATOR[|INITIATOR| - 1] == 'r';
    assert RESPONDER[0] == 'h' && RESPONDER[|RESPONDER| - 1] == 'r';
    TidyLiteral(INITIATOR);
    TidyLiteral(RESPONDER);
  }

  lemma PartyInfoIsWellFormed(local: PartyIdentity, remote: PartyIdentity)
    requires PeppolParty(local) && PeppolParty(remote)
    ensures WellFormed(PARTY_INFO, Model(map[], None, map[From := [PartyModel(local, INITIATOR)],
                                                           To := [PartyModel(remote, RESPONDER)]]))
  {
    RolesAreTidy();
    PartyIsWellFormed(local, INITIATOR);
    PartyIsWellFormed(remote, RESPONDER);
    TwoChildren(PARTY_INFO, Model(map[], None,
                                  map[From := [PartyModel(local, INITIATOR)], To := [PartyModel(remote, RESPONDER)]]),
                PartyModel(local, INITIATOR), PartyModel(remote, RESPONDER));
  }

  lemma TrimRightKeepsPrefix(prefix: string, s: string)
    requires s != "" && !IsSpace(s[|s| - 1]) && prefix != "" && !IsSpace(prefix[0])
    ensures TidyString(prefix + s)
  {
    assert (prefix + s)[0] == prefix[0] && (prefix + s)[|prefix + s| - 1] == s[|s| - 1];
    TrimKeeps(prefix + s);
  }

  lemma TidyEnds(s: string)
    requires TidyString(s)
    ensures s != "" && !IsSpace(s[0]) && !IsSpace(s[|s| - 1])
  {
  }

  lemma ActionIsTidy(a: BuilderArgs)
    requires TidyArguments(a)
    ensures TidyString(BUSDOX_DOCID_QNS + "::" + Print(a.documentType))
  {
    TidyEnds(Print(a.documentType));
    assert BUSDOX_DOCID_QNS[0] == 'b';
    assert (BUSDOX_DOCID_QNS + "::")[0] == 'b';
    TrimRightKeepsPrefix(BUSDOX_DOCID_QNS + "::", Print(a.documentType));
  }

  lemma ConstantsAreTidy()
    ensures TidyString(PEPPOL_AP_PROVIDER) && CENBII_PROCID_UBL != "" && ISO6523_ACTOR_ID != ""
  {
    assert "urn:fdc:peppol.eu:2017:"[0] == 'u';
    assert PEPPOL_AP_PROVIDER[0] == 'u' && PEPPOL_AP_PROVIDER[|PEPPOL_AP_PROVIDER| - 1] == 'r';
    TidyLiteral(PEPPOL_AP_PROVIDER);
  }

  lemma CollaborationIsWellFormed(a: BuilderArgs, conversationId: string)
    requires TidyArguments(a) && TidyString(conversationId)
    ensures WellFormed(COLLABORATION_INFO, CollaborationModel(a, conversationId))
  {
    var action := BUSDOX_DOCID_QNS + "::" + Print(a.documentType);
    var service := Model(map[TypeName := CENBII_PROCID_UBL], Some(Plain(a.process)), map[]);
    ConstantsAreTidy();
    ActionIsTidy(a);
    TextIsWellFormed(Plain(action));
    TextIsWellFormed(Plain(conversationId));
    AgreementIsWellFormed(TextModel(Plain(PEPPOL_AP_PROVIDER)));
    ServiceIsWellFormed(service);
    FourChildren(COLLABORATION_INFO, CollaborationModel(a, conversationId), TextModel(Plain(PEPPOL_AP_PROVIDER)),
                 service, TextModel(Plain(action)), TextModel(Plain(conversationId)));
  }

  lemma AgreementIsWellFormed(m: Model)
    requires m.attributes == map[] && m.text.Some? && Tidy(m.text.value) && m.children == map[]
    ensures WellFormed(COLLABORATION_INFO.schema, m)
  {
    assert WellFormedFields(COLLABORATION_INFO.schema.rest, m);
  }

  lemma ServiceIsWellFormed(m: Model)
    requires m.attributes == map[TypeName := CENBII_PROCID_UBL] && m.text.Some? && Tidy(m.text.value)
    requires m.children == map[]
    ensures WellFormed(COLLABORATION_INFO.rest.schema, m)
  {
    assert CENBII_PROCID_UBL != "";
    assert WellFormedFields(COLLABORATION_INFO.rest.schema.rest, m);
  }

  /** A class of four children and nothing else. */
  lemma FourChildren(f: Schema, m: Model, a: Model, b: Model, c: Model, d: Model)
    requires f.ChildField? && f.rest.ChildField? && f.rest.rest.ChildField? && f.rest.rest.rest.ChildField?
             && f.rest.rest.rest.rest.End?
    requires f.tag !in {f.rest.tag, f.rest.rest.tag, f.rest.rest.rest.tag}
             && f.rest.tag !in {f.rest.rest.tag, f.rest.rest.rest.tag} && f.rest.rest.tag != f.rest.rest.rest.tag
    requires m == Model(map[], None, map[f.tag := [a], f.rest.tag := [b], f.rest.rest.tag := [c],
                                         f.rest.rest.rest.tag := [d]])
    requires WellFormed(f.schema, a) && WellFormed(f.rest.schema, b) && WellFormed(f.rest.rest.schema, c)
             && WellFormed(f.rest.rest.rest.schema, d)
    ensures WellFormed(f, m)
  {
    FieldsChild(f.rest.rest.rest, m, d);
    FieldsChild(f.rest.rest, m, c);
    FieldsChild(f.rest, m, b);
    FieldsChild(f, m, a);
    FirstFields(f);
    FirstFields(f.rest.rest);
    LaterDeclared(f, f.rest.rest.tag);
    LaterDeclared(f, f.rest.rest.rest.tag);
  }

  lemma LaterDeclared(f: Schema, t: Tag)
    requires f.ChildField? && f.rest.ChildField? && Declares(f.rest.rest, t)
    ensures Declares(f, t)
  {
  }

  // ---------------------------------------------------------------- the user message

  /** Input whose header block is well-formed. */
  predicate HonestHeader(i: BuildInput) {
    && TidyArguments(i.arguments)
    && PeppolParty(i.local.identity) && PeppolParty(i.remote.identity)
    && TidyString(i.ids.messageId) && TidyString(i.ids.conversationId) && Tidy(i.now)
    && i.ids.messagingId != ""
    && |i.ids.attachments| == 1
  }

  lemma PropertyPairIsWellFormed(a: BuilderArgs)
    requires TidyArguments(a)
    ensures WellFormed(PROPERTIES, Model(map[], None, map[Property := PropertyModels(a)]))
  {
    assert ORIGINAL_SENDER != "" && FINAL_RECIPIENT != "" && ISO6523_ACTOR_ID != "";
    PropertyIsWellFormed(ORIGINAL_SENDER, a.sender, Some(ISO6523_ACTOR_ID));
    PropertyIsWellFormed(FINAL_RECIPIENT, a.recipient, Some(ISO6523_ACTOR_ID));
    PropertiesAreWellFormed(Model(map[], None, map[Property := PropertyModels(a)]),
                            PropertyModels(a)[0], PropertyModels(a)[1]);
  }

  function PartyInfoModel(i: BuildInput): Model {
    Model(map[], None, map[From := [PartyModel(i.local.identity, INITIATOR)],
                           To := [PartyModel(i.remote.identity, RESPONDER)]])
  }

  function PropertiesModel(i: BuildInput): Model {
    Model(map[], None, map[Property := PropertyModels(i.arguments)])
  }

  function PayloadInfoModel(i: BuildInput): Model {
    Model(map[], None, ListOf(PartInfo, PartInfoModels(i.ids.attachments)))
  }

  lemma UserMessageParts(i: BuildInput)
    ensures var m := UserMessageModel(i);
            && Children(m, MessageInfo) == [MessageInfoModel(i.now, i.ids.messageId, Plain(""))]
            && Children(m, PartyInfo) == [PartyInfoModel(i)]
            && Children(m, CollaborationInfo) == [CollaborationModel(i.arguments, i.ids.conversationId)]
            && Children(m, MessageProperties) == [PropertiesModel(i)]
            && Children(m, PayloadInfo) == [PayloadInfoModel(i)]
            && m.attributes == map[] && m.text == None
            && m.children.Keys == {MessageInfo, PartyInfo, CollaborationInfo, MessageProperties, PayloadInfo}
  {
  }

  predicate UserMessageShape(f: Schema) {
    && f.ChildField? && f.tag == MessageInfo && f.schema == MESSAGE_INFO
    && f.rest.ChildField? && f.rest.tag == PartyInfo && f.rest.schema == PARTY_INFO
    && f.rest.rest.ChildField? && f.rest.rest.tag == CollaborationInfo && f.rest.rest.schema == COLLABORATION_INFO
    && f.rest.rest.rest.ChildField? && f.rest.rest.rest.tag == MessageProperties
    && f.rest.rest.rest.schema == PROPERTIES
    && f.rest.rest.rest.rest.ChildField? && f.rest.rest.rest.rest.tag == PayloadInfo
    && f.rest.rest.rest.rest.schema == PAYLOAD_INFO
    && f.rest.rest.rest.rest.rest == AttributeField(Mpc, false, End)
  }

  lemma UserMessageHasShape()
    ensures UserMessageShape(USER_MESSAGE)
  {
  }

  lemma ShapedUserMessage(f: Schema, m: Model, info: Model, party: Model, collaboration: Model, properties: Model,
                          payload: Model)
    requires UserMessageShape(f)
    requires Children(m, MessageInfo) == [info] && WellFormed(MESSAGE_INFO, info)
    requires Children(m, PartyInfo) == [party] && WellFormed(PARTY_INFO, party)
    requires Children(m, CollaborationInfo) == [collaboration] && WellFormed(COLLABORATION_INFO, collaboration)
    requires Children(m, MessageProperties) == [properties] && WellFormed(PROPERTIES, properties)
    requires Children(m, PayloadInfo) == [payload] && WellFormed(PAYLOAD_INFO, payload)
    requires m.attributes == map[]
    ensures WellFormedFields(f, m)
  {
    AttributeFields(f.rest.rest.rest.rest.rest, m);
    FieldsChild(f.rest.rest.rest.rest, m, payload);
    FieldsChild(f.rest.rest.rest, m, properties);
    FieldsChild(f.rest.rest, m, collaboration);
    FieldsChild(f.rest, m, party);
    FieldsChild(f, m, info);
  }

  lemma UserMessageDeclares(f: Schema)
    requires UserMessageShape(f)
    ensures Declares(f, MessageInfo) && Declares(f, PartyInfo) && Declares(f, CollaborationInfo)
    ensures Declares(f, MessageProperties) && Declares(f, PayloadInfo)
  {
    FirstFields(f);
    FirstFields(f.rest.rest);
    LaterDeclared(f, CollaborationInfo);
    LaterDeclared(f, MessageProperties);
    FieldHere(f.rest.rest.rest.rest);
    LaterDeclared(f.rest.rest, PayloadInfo);
    LaterDeclared(f, PayloadInfo);
  }

  lemma DeclaredTags(f: Schema, m: Model, tags: set<Tag>)
    requires forall t | t in tags :: Declares(f, t)
    requires m.children.Keys == tags && m.attributes == map[] && m.text == None
    ensures OnlyDeclared(f, m)
  {
    assert forall t | t in m.children :: t in m.children.Keys;
  }

  lemma DeclaredUserMessage(f: Schema, m: Model)
    requires UserMessageShape(f) && WellFormedFields(f, m) && m.attributes == map[] && m.text == None
    requires m.children.Keys == {MessageInfo, PartyInfo, CollaborationInfo, MessageProperties, PayloadInfo}
    ensures WellFormed(f, m)
  {
    UserMessageDeclares(f);
    DeclaredTags(f, m, m.children.Keys);
  }

  lemma UserMessagePartsAreWellFormed(i: BuildInput)
    requires HonestHeader(i)
    ensures WellFormed(MESSAGE_INFO, MessageInfoModel(i.now, i.ids.messageId, Plain("")))
    ensures WellFormed(PARTY_INFO, PartyInfoModel(i))
    ensures WellFormed(COLLABORATION_INFO, CollaborationModel(i.arguments, i.ids.conversationId))
    ensures WellFormed(PROPERTIES, PropertiesModel(i))
    ensures WellFormed(PAYLOAD_INFO, PayloadInfoModel(i))
  {
    MessageInfoIsWellFormed(i.now, i.ids.messageId);
    PartyInfoIsWellFormed(i.local.identity, i.remote.identity);
    CollaborationIsWellFormed(i.arguments, i.ids.conversationId);
    PropertyPairIsWellFormed(i.arguments);
    OnePart(i);
    PayloadInfoIsWellFormed(i.ids.attachments[0].0);
  }

  lemma OnePart(i: BuildInput)
    requires |i.ids.attachments| == 1
    ensures PayloadInfoModel(i) == Model(map[], None, map[PartInfo := [PartInfoModel(i.ids.attachments[0].0)]])
  {
    assert PartInfoModels(i.ids.attachments) == [PartInfoModel(i.ids.attachments[0].0)];
  }

  lemma UserMessageIsWellFormed(i: BuildInput)
    requires HonestHeader(i)
    ensures WellFormed(USER_MESSAGE, UserMessageModel(i))
  {
    UserMessagePartsAreWellFormed(i);
    UserMessageHasShape();
    UserMessageParts(i);
    ShapedUserMessage(USER_MESSAGE, UserMessageModel(i), MessageInfoModel(i.now, i.ids.messageId, Plain("")),
                      PartyInfoModel(i),
                      CollaborationModel(i.arguments, i.ids.conversationId), PropertiesModel(i), PayloadInfoModel(i));
    DeclaredUserMessage(USER_MESSAGE, UserMessageModel(i));
  }

  predicate MessagingShape(f: Schema) {
    && f.ChildField? && f.tag == SignalMessage && f.multiplicity.AnyNumber?
    && f.rest.ChildField? && f.rest.tag == UserMessage && f.rest.schema == USER_MESSAGE
    && f.rest.rest == AttributeField(WsuId, false, AttributeField(MustUnderstand, false, End))
  }

  lemma MessagingHasShape()
    ensures MessagingShape(MESSAGING)
  {
  }

  lemma ShapedMessaging(f: Schema, m: Model, message: Model)
    requires MessagingShape(f) && WellFormed(USER_MESSAGE, message)
    requires m.children == map[UserMessage := [message]] && m.text == None
    requires m.attributes.Keys == {WsuId, MustUnderstand} && m.attributes[WsuId] != ""
    requires m.attributes[MustUnderstand] != ""
    ensures WellFormed(f, m)
  {
    AttributeFields(f.rest.rest.rest, m);
    assert WellFormedFields(f.rest.rest, m);
    FieldsChild(f.rest, m, message);
    FieldsAbsent(f, m);
    FirstFields(f);
    MessagingAttributes(f);
    assert forall n | n in m.attributes :: n in m.attributes.Keys;
  }

  lemma MessagingAttributes(f: Schema)
    requires MessagingShape(f)
    ensures HasAttribute(f, WsuId) && HasAttribute(f, MustUnderstand)
  {
    AttributeHere(f.rest.rest, WsuId);
    AttributeHere(f.rest.rest.rest, MustUnderstand);
    AttributeLater(f.rest.rest, MustUnderstand);
    AttributeLater(f.rest, WsuId);
    AttributeLater(f.rest, MustUnderstand);
    AttributeLater(f, WsuId);
    AttributeLater(f, MustUnderstand);
  }

  lemma UserMessagingBlock(i: BuildInput)
    ensures var m := UserMessagingModel(i);
            && m.children == map[UserMessage := [UserMessageModel(i)]] && m.text == None
            && m.attributes.Keys == {WsuId, MustUnderstand}
            && m.attributes[WsuId] == i.ids.messagingId && m.attributes[MustUnderstand] != ""
  {
  }

  /** An honest header block is well-formed. */
  lemma UserMessagingIsWellFormed(i: BuildInput)
    requires HonestHeader(i)
    ensures WellFormed(MESSAGING, UserMessagingModel(i))
  {
    UserMessageIsWellFormed(i);
    MessagingHasShape();
    UserMessagingBlock(i);
    ShapedMessaging(MESSAGING, UserMessagingModel(i), UserMessageModel(i));
  }
}
