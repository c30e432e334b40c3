/** A built business document is well-formed, and its receiver reads its routing header back
    (as4/profiles/peppol/message.py). */
module HonestDocuments {
  import opened Terms
  import opened XmlMapping
  import opened Schemas
  import opened Dsig
  import opened Messages
  import opened DocumentIdentifier
  import opened Peppol
  import opened Builder
  import opened Envelopes
  import opened HonestMessages

  // ---------------------------------------------------------------- the routing header is well-formed

  lemma OneChild(f: Schema, m: Model, child: Model)
    requires f.ChildField? && f.rest.End?
    requires m == Model(map[], None, map[f.tag := [child]]) && WellFormed(f.schema, child)
    ensures WellFormed(f, m)
  {
    FieldsChild(f, m, child);
    FieldHere(f);
  }

  lemma ParticipantIsWellFormed(value: string)
    requires TidyString(value)
    ensures WellFormed(PARTICIPANT, ParticipantModel(value))
  {
    var id := Model(map[Authority := ISO6523_ACTOR_ID], Some(Plain(value)), map[]);
    assert ISO6523_ACTOR_ID != "";
    assert WellFormedFields(PARTICIPANT.schema.rest, id);
    OneChild(PARTICIPANT, ParticipantModel(value), id);
  }

  lemma ScopeIsWellFormed(scopeType: string, instance: string, identifier: string)
    requires TidyString(scopeType) && TidyString(instance) && TidyString(identifier)
    ensures WellFormed(SCOPE, ScopeModel(scopeType, instance, Some(identifier)))
  {
    TextIsWellFormed(Plain(scopeType));
    TextIsWellFormed(Plain(instance));
    TextIsWellFormed(Plain(identifier));
    assert ScopeModel(scopeType, instance, Some(identifier)).children
        == map[SbdhType := [TextModel(Plain(scopeType))], InstanceIdentifier := [TextModel(Plain(instance))],
               Identifier := [TextModel(Plain(identifier))]];
    ThreeChildren(SCOPE, ScopeModel(scopeType, instance, Some(identifier)), TextModel(Plain(scopeType)),
                  TextModel(Plain(instance)), TextModel(Plain(identifier)));
  }

  lemma CountryScopeIsWellFormed(scopeType: string, instance: string)
    requires TidyString(scopeType) && TidyString(instance)
    ensures WellFormed(SCOPE, ScopeModel(scopeType, instance, None))
  {
    TextIsWellFormed(Plain(scopeType));
    TextIsWellFormed(Plain(instance));
    assert ScopeModel(scopeType, instance, None).children
        == map[SbdhType := [TextModel(Plain(scopeType))], InstanceIdentifier := [TextModel(Plain(instance))]];
    TwoOfThree(SCOPE, ScopeModel(scopeType, instance, None), TextModel(Plain(scopeType)), TextModel(Plain(instance)));
  }

  /** A class of three children and nothing else. */
  lemma ThreeChildren(f: Schema, m: Model, a: Model, b: Model, c: Model)
    requires f.ChildField? && f.rest.ChildField? && f.rest.rest.ChildField? && f.rest.rest.rest.End?
    requires f.tag != f.rest.tag && f.rest.rest.tag !in {f.tag, f.rest.tag}
    requires m.attributes == map[] && m.text == None
    requires m.children == map[f.tag := [a], f.rest.tag := [b], f.rest.rest.tag := [c]]
    requires WellFormed(f.schema, a) && WellFormed(f.rest.schema, b) && WellFormed(f.rest.rest.schema, c)
    ensures WellFormed(f, m)
  {
    FieldsChild(f.rest.rest, m, c);
    FieldsChild(f.rest, m, b);
    FieldsChild(f, m, a);
    FirstFields(f);
    FieldHere(f.rest.rest);
    LaterDeclared(f, f.rest.rest.tag);
  }

  predicate FiveFields(f: Schema, a: Tag, b: Tag, c: Tag, d: Tag, e: Tag) {
    && f.ChildField? && f.tag == a
    && f.rest.ChildField? && f.rest.tag == b
    && f.rest.rest.ChildField? && f.rest.rest.tag == c
    && f.rest.rest.rest.ChildField? && f.rest.rest.rest.tag == d
    && f.rest.rest.rest.rest.ChildField? && f.rest.rest.rest.rest.tag == e
    && f.rest.rest.rest.rest.rest.End?
    && a != b && c !in {a, b} && d !in {a, b, c} && e !in {a, b, c, d}
  }

  lemma FiveFieldsAreDeclared(f: Schema, a: Tag, b: Tag, c: Tag, d: Tag, e: Tag)
    requires FiveFields(f, a, b, c, d, e)
    ensures Declares(f, a) && Declares(f, b) && Declares(f, c) && Declares(f, d) && Declares(f, e)
  {
    FirstFields(f);
    FirstFields(f.rest.rest);
    LaterDeclared(f, c);
    LaterDeclared(f, d);
    FieldHere(f.rest.rest.rest.rest);
    LaterDeclared(f.rest.rest, e);
    LaterDeclared(f, e);
  }

  /** A class of five children and nothing else. */
  lemma FiveChildren(f: Schema, m: Model, a: Tag, b: Tag, c: Tag, d: Tag, e: Tag)
    requires FiveFields(f, a, b, c, d, e)
    requires m.attributes == map[] && m.text == None && m.children.Keys == {a, b, c, d, e}
    requires |Children(m, a)| == 1 && WellFormed(f.schema, Child(m, a))
    requires |Children(m, b)| == 1 && WellFormed(f.rest.schema, Child(m, b))
    requires |Children(m, c)| == 1 && WellFormed(f.rest.rest.schema, Child(m, c))
    requires |Children(m, d)| == 1 && WellFormed(f.rest.rest.rest.schema, Child(m, d))
    requires |Children(m, e)| == 1 && WellFormed(f.rest.rest.rest.rest.schema, Child(m, e))
    ensures WellFormed(f, m)
  {
    FieldsChild(f.rest.rest.rest.rest, m, Child(m, e));
    FieldsChild(f.rest.rest.rest, m, Child(m, d));
    FieldsChild(f.rest.rest, m, Child(m, c));
    FieldsChild(f.rest, m, Child(m, b));
    FieldsChild(f, m, Child(m, a));
    FiveFieldsAreDeclared(f, a, b, c, d, e);
    DeclaredTags(f, m, {a, b, c, d, e});
  }

  lemma DocumentIdentificationParts(a: BuilderArgs, rootName: string, now: Text)
    ensures var m := DocumentIdentificationModel(a, rootName, now);
            && Children(m, Standard) == [TextModel(Plain(RootNamespace(a.documentType)))]
            && Children(m, TypeVersion) == [TextModel(Plain(a.documentType.version))]
            && Children(m, InstanceIdentifier) == [TextModel(Plain(a.instanceId))]
            && Children(m, SbdhType) == [TextModel(Plain(rootName))]
            && Children(m, CreationDateAndTime) == [TextModel(now)]
            && m.attributes == map[] && m.text == None
            && m.children.Keys == {Standard, TypeVersion, InstanceIdentifier, SbdhType, CreationDateAndTime}
  {
  }

  lemma DocumentIdentificationIsWellFormed(a: BuilderArgs, rootName: string, now: Text)
    requires TidyArguments(a) && TidyString(rootName) && Tidy(now)
    ensures WellFormed(DOCUMENT_IDENTIFICATION, DocumentIdentificationModel(a, rootName, now))
  {
    DocumentIdentificationParts(a, rootName, now);
    TextIsWellFormed(Plain(RootNamespace(a.documentType)));
    TextIsWellFormed(Plain(a.documentType.version));
    TextIsWellFormed(Plain(a.instanceId));
    TextIsWellFormed(Plain(rootName));
    TextIsWellFormed(now);
    FiveChildren(DOCUMENT_IDENTIFICATION, DocumentIdentificationModel(a, rootName, now), Standard, TypeVersion,
                 InstanceIdentifier, SbdhType, CreationDateAndTime);
  }

  lemma ScopeConstantsAreTidy()
    ensures TidyString(DOCUMENTID) && TidyString(PROCESSID) && TidyString(COUNTRY_C1)
    ensures TidyString(BUSDOX_DOCID_QNS) && TidyString(CENBII_PROCID_UBL)
  {
    assert DOCUMENTID[0] == 'D' && DOCUMENTID[|DOCUMENTID| - 1] == 'D';
    TrimKeeps(DOCUMENTID);
    assert PROCESSID[0] == 'P' && PROCESSID[|PROCESSID| - 1] == 'D';
    TrimKeeps(PROCESSID);
    assert COUNTRY_C1[0] == 'C' && COUNTRY_C1[|COUNTRY_C1| - 1] == '1';
    TrimKeeps(COUNTRY_C1);
    assert BUSDOX_DOCID_QNS[0] == 'b' && BUSDOX_DOCID_QNS[|BUSDOX_DOCID_QNS| - 1] == 's';
    TrimKeeps(BUSDOX_DOCID_QNS);
    assert CENBII_PROCID_UBL[0] == 'c' && CENBII_PROCID_UBL[|CENBII_PROCID_UBL| - 1] == 'l';
    TrimKeeps(CENBII_PROCID_UBL);
  }

  const SCOPES := ChildField(Scope, AtLeastOne, SCOPE, End)

  function BusinessScopeModel(a: BuilderArgs): Model {
    Model(map[], None, map[Scope := ScopeModels(a)])
  }

  lemma BusinessScopeIsWellFormed(a: BuilderArgs)
    requires TidyArguments(a)
    ensures WellFormed(SCOPES, BusinessScopeModel(a))
  {
    ScopeConstantsAreTidy();
    ScopeIsWellFormed(DOCUMENTID, Print(a.documentType), BUSDOX_DOCID_QNS);
    ScopeIsWellFormed(PROCESSID, a.process, CENBII_PROCID_UBL);
    CountryScopeIsWellFormed(COUNTRY_C1, a.country);
    ThreeScopes(SCOPES, BusinessScopeModel(a), ScopeModels(a));
  }

  lemma ThreeScopes(f: Schema, m: Model, scopes: seq<Model>)
    requires f.ChildField? && f.tag == Scope && f.multiplicity.AtLeastOne? && f.rest.End? && |scopes| == 3
    requires m == Model(map[], None, map[Scope := scopes])
    requires WellFormed(f.schema, scopes[0]) && WellFormed(f.schema, scopes[1]) && WellFormed(f.schema, scopes[2])
    ensures WellFormed(f, m)
  {
    assert scopes[1..][0] == scopes[1] && scopes[2..][0] == scopes[2] && scopes[1..][1..] == scopes[2..];
    assert scopes[2..][1..] == [];
    assert AllWellFormed(f.schema, scopes[2..]);
    assert AllWellFormed(f.schema, scopes[1..]);
    FieldHere(f);
  }

  lemma BusinessHeaderParts(a: BuilderArgs, rootName: string, now: Text)
    ensures var m := BusinessHeaderModel(a, rootName, now);
            && Children(m, HeaderVersion) == [TextModel(Plain("1.0"))]
            && Children(m, Sender) == [ParticipantModel(a.sender)]
            && Children(m, Receiver) == [ParticipantModel(a.recipient)]
            && Children(m, DocumentIdentification) == [DocumentIdentificationModel(a, rootName, now)]
            && Children(m, BusinessScope) == [BusinessScopeModel(a)]
            && m.attributes == map[] && m.text == None
            && m.children.Keys == {HeaderVersion, Sender, Receiver, DocumentIdentification, BusinessScope}
  {
  }

  lemma VersionIsTidy()
    ensures TidyString("1.0")
  {
    var version := "1.0";
    assert version[0] == '1' && version[|version| - 1] == '0';
    TrimKeeps(version);
  }

  lemma BusinessHeaderIsWellFormed(a: BuilderArgs, rootName: string, now: Text)
    requires TidyArguments(a) && TidyString(rootName) && Tidy(now)
    ensures WellFormed(BUSINESS_DOCUMENT_HEADER, BusinessHeaderModel(a, rootName, now))
  {
    BusinessHeaderParts(a, rootName, now);
    VersionIsTidy();
    TextIsWellFormed(Plain("1.0"));
    ParticipantIsWellFormed(a.sender);
    ParticipantIsWellFormed(a.recipient);
    DocumentIdentificationIsWellFormed(a, rootName, now);
    BusinessScopeIsWellFormed(a);
    FiveChildren(BUSINESS_DOCUMENT_HEADER, BusinessHeaderModel(a, rootName, now), HeaderVersion, Sender, Receiver,
                 DocumentIdentification, BusinessScope);
  }

  /** An honest business document is well-formed. */
  lemma BusinessDocumentIsWellFormed(a: BuilderArgs, rootName: string, now: Text)
    requires TidyArguments(a) && TidyString(rootName) && Tidy(now)
    ensures WellFormed(BUSINESS_DOCUMENT, BusinessDocumentModel(a, rootName, now))
  {
    BusinessHeaderIsWellFormed(a, rootName, now);
    OneChild(BUSINESS_DOCUMENT, BusinessDocumentModel(a, rootName, now), BusinessHeaderModel(a, rootName, now));
  }

  // ---------------------------------------------------------------- the payload beside it is ignored

  lemma {:induction false} UndeclaredIsIgnored(f: Schema, d: Model, t: Tag, ms: seq<Model>)
    requires !Declares(f, t)
    ensures Check(f, d.(children := d.children[t := ms])) == Check(f, d)
    ensures Project(f, d.(children := d.children[t := ms])) == Project(f, d)
  {
    if !f.End? {
      UndeclaredIsIgnored(f.rest, d, t, ms);
    }
  }

  /** An undeclared last child does not change what is loaded. */
  lemma ExtraChildIsIgnored(s: Schema, e: Element, extra: Element)
    requires !Declares(s, extra.tag)
    ensures Load(s, e.(children := e.children + [extra])) == Load(s, e)
  {
    var d, d' := ToDict(e), ToDict(e.(children := e.children + [extra]));
    GroupedSnoc(e.children, extra);
    assert d' == d.(children := d.children[extra.tag := d'.children[extra.tag]]);
    UndeclaredIsIgnored(s, d, extra.tag, d'.children[extra.tag]);
  }

  function RoutingHeaderElement(a: BuilderArgs, rootName: string, now: Text): Element {
    Dump(BUSINESS_DOCUMENT_HEADER, StandardBusinessDocumentHeader, BusinessHeaderModel(a, rootName, now))
  }

  lemma DocumentHeaderIsFound(a: BuilderArgs, rootName: string, now: Text, payload: Element)
    requires payload.tag != StandardBusinessDocumentHeader
    ensures Tagged(BusinessDocumentElement(a, rootName, now, payload).children, StandardBusinessDocumentHeader)
         == [RoutingHeaderElement(a, rootName, now)]
  {
    var dumped := Dump(BUSINESS_DOCUMENT, StandardBusinessDocument, BusinessDocumentModel(a, rootName, now));
    BusinessDocumentAliases();
    FieldHere(BUSINESS_DOCUMENT);
    DumpedChild(BUSINESS_DOCUMENT, StandardBusinessDocument, BusinessDocumentModel(a, rootName, now),
                StandardBusinessDocumentHeader, BUSINESS_DOCUMENT_HEADER, BusinessHeaderModel(a, rootName, now));
    OtherTagIsNotFound(dumped, StandardBusinessDocumentHeader, RoutingHeaderElement(a, rootName, now), payload);
  }

  lemma OtherTagIsNotFound(e: Element, t: Tag, child: Element, extra: Element)
    requires OnlyTagged(e, t, child) && extra.tag != t
    ensures Tagged(e.children + [extra], t) == [child]
  {
    TaggedConcat(e.children, [extra], t);
    assert Tagged([extra], t) == [];
  }

  lemma DocumentIsLoaded(a: BuilderArgs, rootName: string, now: Text, payload: Element)
    requires TidyArguments(a) && TidyString(rootName) && Tidy(now)
    requires payload.tag != StandardBusinessDocumentHeader
    ensures Load(BUSINESS_DOCUMENT, BusinessDocumentElement(a, rootName, now, payload))
         == Ok(BusinessDocumentModel(a, rootName, now))
  {
    BusinessDocumentIsWellFormed(a, rootName, now);
    BusinessDocumentAliases();
    RoundTrip(BUSINESS_DOCUMENT, StandardBusinessDocument, BusinessDocumentModel(a, rootName, now));
    ExtraChildIsIgnored(BUSINESS_DOCUMENT,
                        Dump(BUSINESS_DOCUMENT, StandardBusinessDocument, BusinessDocumentModel(a, rootName, now)),
                        payload);
  }

  /** A payload that is itself a routing header makes two of them, which no receiver reads. */
  lemma SecondHeaderIsRefused(c: Context, a: BuilderArgs, rootName: string, now: Text, payload: Element)
    requires payload.tag == StandardBusinessDocumentHeader
    ensures BusinessHeader(c, Xml(BusinessDocumentElement(a, rootName, now, payload))).None?
  {
    var dumped := Dump(BUSINESS_DOCUMENT, StandardBusinessDocument, BusinessDocumentModel(a, rootName, now));
    BusinessDocumentAliases();
    FieldHere(BUSINESS_DOCUMENT);
    DumpedChild(BUSINESS_DOCUMENT, StandardBusinessDocument, BusinessDocumentModel(a, rootName, now),
                StandardBusinessDocumentHeader, BUSINESS_DOCUMENT_HEADER, BusinessHeaderModel(a, rootName, now));
    TwiceIsRefused(BUSINESS_DOCUMENT, dumped, payload, RoutingHeaderElement(a, rootName, now));
  }

  /** A single-valued child that is given once more. */
  lemma TwiceIsRefused(s: Schema, e: Element, extra: Element, child: Element)
    requires s.ChildField? && s.tag == extra.tag && s.multiplicity.One? && OnlyTagged(e, extra.tag, child)
    ensures Load(s, e.(children := e.children + [extra])).Err?
  {
    TaggedConcat(e.children, [extra], extra.tag);
    assert Tagged([extra], extra.tag) == [extra];
    if Load(s, e.(children := e.children + [extra])).Ok? {
      FieldHere(s);
      LoadedChild(s, e.(children := e.children + [extra]), extra.tag);
      assert false;
    }
  }

  /** The routing header of a delivered document is the built one, exactly when the payload beside it is not
      a routing header. */
  lemma RoutingHeaderIsRead(c: Context, a: BuilderArgs, rootName: string, now: Text, payload: Element)
    requires TidyArguments(a) && TidyString(rootName) && Tidy(now)
    requires c.schemaValid(RoutingHeaderElement(a, rootName, now))
    ensures BusinessHeader(c, Xml(BusinessDocumentElement(a, rootName, now, payload)))
         == if payload.tag == StandardBusinessDocumentHeader then None else Some(BusinessHeaderModel(a, rootName, now))
  {
    if payload.tag == StandardBusinessDocumentHeader {
      SecondHeaderIsRefused(c, a, rootName, now, payload);
    } else {
      DocumentHeaderIsFound(a, rootName, now, payload);
      DocumentIsLoaded(a, rootName, now, payload);
      assert Children(BusinessDocumentModel(a, rootName, now), StandardBusinessDocumentHeader)
          == [BusinessHeaderModel(a, rootName, now)];
    }
  }

  // ---------------------------------------------------------------- routing an honest document

  lemma ParticipantParts(value: string)
    ensures Child(ParticipantModel(value), Identifier)
         == Model(map[Authority := ISO6523_ACTOR_ID], Some(Plain(value)), map[])
  {
  }

  lemma HonestParticipants(header: Model, a: BuilderArgs, rootName: string, now: Text)
    requires header == BusinessHeaderModel(a, rootName, now)
    ensures TextOf(ParticipantOf(header, Sender)) == Plain(a.sender)
    ensures TextOf(ParticipantOf(header, Receiver)) == Plain(a.recipient)
    ensures AttributeOf(ParticipantOf(header, Sender), Authority) == Some(ISO6523_ACTOR_ID)
    ensures AttributeOf(ParticipantOf(header, Receiver), Authority) == Some(ISO6523_ACTOR_ID)
    ensures ScopesOf(header) == ScopeModels(a)
  {
    BusinessHeaderParts(a, rootName, now);
    ParticipantParts(a.sender);
    ParticipantParts(a.recipient);
  }

  lemma HonestProperties(a: BuilderArgs)
    ensures FindProperty(PropertyModels(a), ORIGINAL_SENDER)
         == Some(PropertyModel(ORIGINAL_SENDER, a.sender, Some(ISO6523_ACTOR_ID)))
    ensures FindProperty(PropertyModels(a), FINAL_RECIPIENT)
         == Some(PropertyModel(FINAL_RECIPIENT, a.recipient, Some(ISO6523_ACTOR_ID)))
  {
    assert ORIGINAL_SENDER[0] != FINAL_RECIPIENT[0];
    var rest := PropertyModels(a)[1..];
    assert rest[0] == PropertyModel(FINAL_RECIPIENT, a.recipient, Some(ISO6523_ACTOR_ID));
  }

  /** The header properties of an honest message name the participants of its document. */
  lemma HonestParticipantsAgree(message: Model, header: Model, a: BuilderArgs)
    requires Children(Child(message, MessageProperties), Property) == PropertyModels(a)
    requires TextOf(ParticipantOf(header, Sender)) == Plain(a.sender)
    requires TextOf(ParticipantOf(header, Receiver)) == Plain(a.recipient)
    requires AttributeOf(ParticipantOf(header, Sender), Authority) == Some(ISO6523_ACTOR_ID)
    requires AttributeOf(ParticipantOf(header, Receiver), Authority) == Some(ISO6523_ACTOR_ID)
    ensures ParticipantsAgree(message, header)
  {
    HonestProperties(a);
  }

  lemma ScopeParts(scopeType: string, instance: string, identifier: Option<string>)
    ensures var m := ScopeModel(scopeType, instance, identifier);
            && TextOf(Child(m, SbdhType)) == Plain(scopeType)
            && TextOf(Child(m, InstanceIdentifier)) == Plain(instance)
            && OptionalChild(m, Identifier)
               == (if identifier.None? then None else Some(TextModel(Plain(identifier.value))))
  {
  }

  lemma HonestScopes(a: BuilderArgs)
    ensures FindScope(ScopeModels(a), DOCUMENTID)
         == Some(ScopeModel(DOCUMENTID, Print(a.documentType), Some(BUSDOX_DOCID_QNS)))
    ensures FindScope(ScopeModels(a), PROCESSID) == Some(ScopeModel(PROCESSID, a.process, Some(CENBII_PROCID_UBL)))
    ensures FindScope(ScopeModels(a), COUNTRY_C1) == Some(ScopeModel(COUNTRY_C1, a.country, None))
  {
    var scopes := ScopeModels(a);
    assert DOCUMENTID[0] == 'D' && PROCESSID[0] == 'P' && COUNTRY_C1[0] == 'C';
    ScopeParts(DOCUMENTID, Print(a.documentType), Some(BUSDOX_DOCID_QNS));
    ScopeParts(PROCESSID, a.process, Some(CENBII_PROCID_UBL));
    ScopeParts(COUNTRY_C1, a.country, None);
    LastOfThree(scopes, DOCUMENTID);
    LastOfThree(scopes, PROCESSID);
    LastOfThree(scopes, COUNTRY_C1);
  }

  lemma LastOfThree(scopes: seq<Model>, scopeType: string)
    requires |scopes| == 3
    ensures FindScope(scopes, scopeType)
         == if TextOf(Child(scopes[2], SbdhType)) == Plain(scopeType) then Some(scopes[2])
            else if TextOf(Child(scopes[1], SbdhType)) == Plain(scopeType) then Some(scopes[1])
            else if TextOf(Child(scopes[0], SbdhType)) == Plain(scopeType) then Some(scopes[0]) else None
  {
    var two := scopes[..2];
    var one := two[..1];
    assert two[1] == scopes[1] && one[0] == scopes[0];
    assert one[..0] == [];
    assert FindScope(one, scopeType)
        == if TextOf(Child(scopes[0], SbdhType)) == Plain(scopeType) then Some(scopes[0]) else None;
  }

  /** Routing an honest document fills in what the builder was given. */
  lemma HonestDocumentIsRouted(c: Context, message: Model, header: Model, a: BuilderArgs, p: Progress)
    requires c.acceptor.Some? ==> c.acceptor.value(Plain(a.recipient)) == Accepted
    requires ParticipantsAgree(message, header) && ScopesOf(header) == ScopeModels(a)
    requires TextOf(ParticipantOf(header, Sender)) == Plain(a.sender)
    requires TextOf(ParticipantOf(header, Receiver)) == Plain(a.recipient)
    ensures Route(c, message, header, p).Continue?
    ensures Route(c, message, header, p).progress.fields
         == p.fields.(sender := Some(Plain(a.sender)), recipient := Some(Plain(a.recipient)),
                      documentType := Some(Plain(Print(a.documentType))),
                      documentScheme := Some(Plain(BUSDOX_DOCID_QNS)),
                      process := Some(Plain(a.process)))
  {
    HonestScopes(a);
    ScopeParts(DOCUMENTID, Print(a.documentType), Some(BUSDOX_DOCID_QNS));
    ScopeParts(PROCESSID, a.process, Some(CENBII_PROCID_UBL));
  }
}
