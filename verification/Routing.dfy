/** What the routing fields of an accepted message say (as4/profiles/peppol/message.py). */
module Routing {
  import opened Terms
  import opened XmlMapping
  import opened Schemas
  import opened Messages
  import opened DocumentIdentifier
  import opened Peppol
  import opened Builder
  import opened Envelopes
  import opened Acceptance
  import opened Agreement
  import opened HonestMessages
  import opened HonestDocuments
  import opened HonestParse

  // ---------------------------------------------------------------- the fields are those of the first payload

  /** The routing fields are those of this header. */
  ghost predicate RoutedBy(m: Message, header: Model) {
    var document, process := FindScope(ScopesOf(header), DOCUMENTID), FindScope(ScopesOf(header), PROCESSID);
    && m.sender == Some(TextOf(ParticipantOf(header, Sender)))
    && m.recipient == Some(TextOf(ParticipantOf(header, Receiver)))
    && document.Some? && process.Some?
    && m.documentType == Some(TextOf(Child(document.value, InstanceIdentifier)))
    && m.documentScheme == Some(
         if OptionalChild(document.value, Identifier).Some? then TextOf(Child(document.value, Identifier))
         else Plain(BUSDOX_DOCID_QNS))
    && m.process == Some(TextOf(Child(process.value, InstanceIdentifier)))
  }

  lemma RouteFillsIn(c: Context, message: Model, header: Model, p: Progress)
    requires Route(c, message, header, p).Continue?
    ensures RoutedBy(Route(c, message, header, p).progress.fields, header)
  {
  }

  lemma ProcessFillsIn(c: Context, p: Progress) returns (header: Model)
    requires p.fields.envelope.Some? && ProcessSbdh(c, p).Continue?
    requires p.fields.documentType.None? && p.fields.documentScheme.None? && p.fields.process.None?
    ensures FirstPayload(ProcessSbdh(c, p).progress.fields).Some?
    ensures BusinessHeader(c, FirstPayload(ProcessSbdh(c, p).progress.fields).value) == Some(header)
    ensures RoutedBy(ProcessSbdh(c, p).progress.fields, header)
  {
    RoutingReadsThePayload(c, p);
    header := BusinessHeader(c, FirstPayload(p.fields).value).value;
    RouteFillsIn(c, RequiredUserMessage(p.fields.envelope.value).value, header, p);
  }

  /** The routing fields of an accepted message are those of the document in its first attachment. */
  lemma AcceptedIsRoutedBy(c: Context, w: Wire) returns (header: Model)
    requires Peppol.Parse(c, w).Returned? && Peppol.Parse(c, w).message.error.None?
    ensures FirstPayload(Peppol.Parse(c, w).message).Some?
    ensures BusinessHeader(c, FirstPayload(Peppol.Parse(c, w).message).value) == Some(header)
    ensures RoutedBy(Peppol.Parse(c, w).message, header)
  {
    IdentifyFacts(w.soap.root);
    var p1 := Identify(w.soap.root, Progress(NO_FIELDS, [])).progress;
    CoreLeavesRouting(c, w, p1);
    header := ProcessFillsIn(c, CoreProcess(c, w.soap.root, w.attachments, p1).progress);
  }

  // ---------------------------------------------------------------- the fields of a built document

  /** The routing fields are what the builder was given, stripped. */
  predicate RoutesAsBuilt(m: Message, a: BuilderArgs) {
    && m.sender == Some(Trim(Plain(a.sender))) && m.recipient == Some(Trim(Plain(a.recipient)))
    && m.documentType == Some(Trim(Plain(Print(a.documentType)))) && m.documentScheme == Some(Plain(BUSDOX_DOCID_QNS))
    && m.process == Some(Trim(Plain(a.process)))
  }

  lemma OnlyChildIsRead(s: Schema, tag: Tag, m: Model, inner: Schema, child: Model, extra: Element, read: Model)
    requires DistinctAliases(s) && s.ChildField? && s.rest.End? && s.schema == inner && extra.tag != s.tag
    requires Children(m, s.tag) == [child]
    requires Load(s, Dump(s, tag, m).(children := Dump(s, tag, m).children + [extra])) == Ok(read)
    ensures Child(read, s.tag) == Norm(inner, child)
  {
    FieldHere(s);
    FieldLater(s, extra.tag);
    ExtraChildIsIgnored(s, Dump(s, tag, m), extra);
    LoadDump(s, tag, m);
    NormChild(s, m, s.tag);
  }

  lemma DocumentParts(a: BuilderArgs, rootName: string, now: Text)
    ensures Children(BusinessDocumentModel(a, rootName, now), StandardBusinessDocumentHeader)
         == [BusinessHeaderModel(a, rootName, now)]
  {
  }

  lemma HeaderOfLoaded(c: Context, root: Element, header: Model)
    requires BusinessHeader(c, Xml(root)) == Some(header)
    ensures Load(BUSINESS_DOCUMENT, root).Ok?
    ensures Child(Load(BUSINESS_DOCUMENT, root).value, StandardBusinessDocumentHeader) == header
  {
  }

  lemma BuiltHeaderIsRead(c: Context, a: BuilderArgs, rootName: string, now: Text, payload: Element, header: Model)
    requires BusinessHeader(c, Xml(BusinessDocumentElement(a, rootName, now, payload))) == Some(header)
    ensures header == Norm(BUSINESS_DOCUMENT_HEADER, BusinessHeaderModel(a, rootName, now))
  {
    if payload.tag == StandardBusinessDocumentHeader {
      SecondHeaderIsRefused(c, a, rootName, now, payload);
      assert false;
    } else {
      var doc := BusinessDocumentElement(a, rootName, now, payload);
      HeaderOfLoaded(c, doc, header);
      DocumentParts(a, rootName, now);
      BusinessDocumentAliases();
      OnlyChildIsRead(BUSINESS_DOCUMENT, StandardBusinessDocument, BusinessDocumentModel(a, rootName, now),
                      BUSINESS_DOCUMENT_HEADER,
                      BusinessHeaderModel(a, rootName, now), payload, Load(BUSINESS_DOCUMENT, doc).value);
    }
  }

  lemma FiveFieldsNest(f: Schema, a: Tag, b: Tag, c: Tag, d: Tag, e: Tag)
    requires FiveFields(f, a, b, c, d, e)
    ensures Nests(f, b, f.rest.schema) && Nests(f, c, f.rest.rest.schema) && Nests(f, e, f.rest.rest.rest.rest.schema)
  {
    FieldLater(f, b);
    FieldHere(f.rest);
    FieldLater(f, c);
    FieldLater(f.rest, c);
    FieldHere(f.rest.rest);
    FieldLater(f, e);
    FieldLater(f.rest, e);
    FieldLater(f.rest.rest, e);
    FieldLater(f.rest.rest.rest, e);
    FieldHere(f.rest.rest.rest.rest);
  }

  lemma HeaderFields()
    ensures Nests(BUSINESS_DOCUMENT_HEADER, Sender, PARTICIPANT)
    ensures Nests(BUSINESS_DOCUMENT_HEADER, Receiver, PARTICIPANT)
    ensures Nests(BUSINESS_DOCUMENT_HEADER, BusinessScope, SCOPES)
  {
    FiveFieldsNest(BUSINESS_DOCUMENT_HEADER, HeaderVersion, Sender, Receiver, DocumentIdentification, BusinessScope);
  }

  lemma InnerFields()
    ensures Nests(PARTICIPANT, Identifier, PARTICIPANT.schema) && HasText(PARTICIPANT.schema)
    ensures Nests(SCOPES, Scope, SCOPE)
  {
    FieldHere(SCOPES);
    FieldHere(PARTICIPANT);
  }

  lemma ParticipantReadsBack(f: Schema, header: Model, direction: Tag, participant: Schema, inner: Schema,
                             value: string)
    requires Nests(f, direction, participant) && Nests(participant, Identifier, inner) && HasText(inner)
    requires Children(header, direction) == [ParticipantModel(value)]
    ensures TextOf(ParticipantOf(Norm(f, header), direction)) == Trim(Plain(value))
  {
    NormChild(f, header, direction);
    ParticipantParts(value);
    NormChildText(participant, ParticipantModel(value), Identifier);
  }

  predicate ScopeShape(f: Schema) {
    && f.ChildField? && f.tag == SbdhType && f.schema == REQUIRED_TEXT
    && f.rest.ChildField? && f.rest.tag == InstanceIdentifier && f.rest.schema == REQUIRED_TEXT
    && f.rest.rest.ChildField? && f.rest.rest.tag == Identifier && f.rest.rest.schema == REQUIRED_TEXT
  }

  lemma ScopeFields(f: Schema)
    requires ScopeShape(f)
    ensures Nests(f, SbdhType, REQUIRED_TEXT) && Nests(f, InstanceIdentifier, REQUIRED_TEXT)
    ensures Nests(f, Identifier, REQUIRED_TEXT)
  {
    FieldHere(f);
    FieldLater(f, InstanceIdentifier);
    FieldHere(f.rest);
    FieldLater(f, Identifier);
    FieldLater(f.rest, Identifier);
    FieldHere(f.rest.rest);
  }

  lemma ScopeReadsBack(f: Schema, scopeType: string, instance: string, identifier: Option<string>)
    requires ScopeShape(f)
    ensures var m := Norm(f, ScopeModel(scopeType, instance, identifier));
            && TextOf(Child(m, SbdhType)) == Trim(Plain(scopeType))
            && TextOf(Child(m, InstanceIdentifier)) == Trim(Plain(instance))
            && (OptionalChild(m, Identifier).Some? <==> identifier.Some?)
            && (identifier.Some? ==> TextOf(Child(m, Identifier)) == Trim(Plain(identifier.value)))
  {
    var m := ScopeModel(scopeType, instance, identifier);
    ScopeFields(f);
    ScopeParts(scopeType, instance, identifier);
    NormChildText(f, m, SbdhType);
    NormChildText(f, m, InstanceIdentifier);
    NormChildText(f, m, Identifier);
    NormChild(f, m, Identifier);
  }

  lemma ScopesReadBack(f: Schema, header: Model, scopes: Schema, scope: Schema, a: BuilderArgs)
    requires Nests(f, BusinessScope, scopes) && Nests(scopes, Scope, scope)
    requires Children(header, BusinessScope) == [BusinessScopeModel(a)]
    ensures ScopesOf(Norm(f, header)) == NormAll(scope, ScopeModels(a))
  {
    NormChild(f, header, BusinessScope);
    NormChildren(scopes, BusinessScopeModel(a), Scope);
  }

  lemma TypedScopesAreFound(scopes: seq<Model>, first: string, second: string, third: string)
    requires |scopes| == 3 && first != second && first != third && second != third
    requires TextOf(Child(scopes[0], SbdhType)) == Plain(first) && TextOf(Child(scopes[1], SbdhType)) == Plain(second)
    requires TextOf(Child(scopes[2], SbdhType)) == Plain(third)
    ensures FindScope(scopes, first) == Some(scopes[0]) && FindScope(scopes, second) == Some(scopes[1])
  {
    LastOfThree(scopes, first);
    LastOfThree(scopes, second);
  }

  lemma ScopeTypesDiffer()
    ensures DOCUMENTID != PROCESSID && DOCUMENTID != COUNTRY_C1 && PROCESSID != COUNTRY_C1
  {
    assert DOCUMENTID[0] == 'D' && PROCESSID[0] == 'P' && COUNTRY_C1[0] == 'C';
  }

  lemma ScopeTypeReadsBack(scope: Schema, scopeType: string, instance: string, identifier: Option<string>)
    requires ScopeShape(scope) && TidyString(scopeType)
    ensures TextOf(Child(Norm(scope, ScopeModel(scopeType, instance, identifier)), SbdhType)) == Plain(scopeType)
  {
    ScopeReadsBack(scope, scopeType, instance, identifier);
  }

  lemma TypedScopesReadBack(scope: Schema, first: Model, second: Model, third: Model, types: seq<string>)
    requires |types| == 3 && types[0] != types[1] && types[0] != types[2] && types[1] != types[2]
    requires TextOf(Child(Norm(scope, first), SbdhType)) == Plain(types[0])
    requires TextOf(Child(Norm(scope, second), SbdhType)) == Plain(types[1])
    requires TextOf(Child(Norm(scope, third), SbdhType)) == Plain(types[2])
    ensures FindScope(NormAll(scope, [first, second, third]), types[0]) == Some(Norm(scope, first))
    ensures FindScope(NormAll(scope, [first, second, third]), types[1]) == Some(Norm(scope, second))
  {
    NormEach(scope, [first, second, third]);
    TypedScopesAreFound(NormAll(scope, [first, second, third]), types[0], types[1], types[2]);
  }

  lemma ScopesAreFound(scope: Schema, a: BuilderArgs)
    requires ScopeShape(scope)
    ensures var scopes := NormAll(scope, ScopeModels(a));
            && FindScope(scopes, DOCUMENTID)
               == Some(Norm(scope, ScopeModel(DOCUMENTID, Print(a.documentType), Some(BUSDOX_DOCID_QNS))))
            && FindScope(scopes, PROCESSID)
               == Some(Norm(scope, ScopeModel(PROCESSID, a.process, Some(CENBII_PROCID_UBL))))
  {
    ScopeConstantsAreTidy();
    ScopeTypesDiffer();
    ScopeTypeReadsBack(scope, DOCUMENTID, Print(a.documentType), Some(BUSDOX_DOCID_QNS));
    ScopeTypeReadsBack(scope, PROCESSID, a.process, Some(CENBII_PROCID_UBL));
    ScopeTypeReadsBack(scope, COUNTRY_C1, a.country, None);
    TypedScopesReadBack(scope, ScopeModels(a)[0], ScopeModels(a)[1], ScopeModels(a)[2],
                        [DOCUMENTID, PROCESSID, COUNTRY_C1]);
  }

  /** What routing by a header says whose parts are known. */
  lemma RoutedByParts(m: Message, header: Model, scope: Schema, a: BuilderArgs)
    requires RoutedBy(m, header) && ScopeShape(scope) && ScopesOf(header) == NormAll(scope, ScopeModels(a))
    requires TextOf(ParticipantOf(header, Sender)) == Trim(Plain(a.sender))
    requires TextOf(ParticipantOf(header, Receiver)) == Trim(Plain(a.recipient))
    ensures RoutesAsBuilt(m, a)
  {
    ScopesAreFound(scope, a);
    ScopeConstantsAreTidy();
    ScopeReadsBack(scope, DOCUMENTID, Print(a.documentType), Some(BUSDOX_DOCID_QNS));
    ScopeReadsBack(scope, PROCESSID, a.process, Some(CENBII_PROCID_UBL));
  }

  lemma BuiltHeaderRoutes(m: Message, header: Model, a: BuilderArgs, rootName: string, now: Text)
    requires header == Norm(BUSINESS_DOCUMENT_HEADER, BusinessHeaderModel(a, rootName, now)) && RoutedBy(m, header)
    ensures RoutesAsBuilt(m, a)
  {
    var model := BusinessHeaderModel(a, rootName, now);
    HeaderFields();
    InnerFields();
    BusinessHeaderParts(a, rootName, now);
    ParticipantReadsBack(BUSINESS_DOCUMENT_HEADER, model, Sender, PARTICIPANT, PARTICIPANT.schema, a.sender);
    ParticipantReadsBack(BUSINESS_DOCUMENT_HEADER, model, Receiver, PARTICIPANT, PARTICIPANT.schema, a.recipient);
    ScopesReadBack(BUSINESS_DOCUMENT_HEADER, model, SCOPES, SCOPE, a);
    RoutedByParts(m, header, SCOPE, a);
  }

  // ---------------------------------------------------------------- agreement on them

  /** An accepted message whose first attachment holds what was built routes as it was built. */
  lemma FirstPayloadRoutes(c: Context, w: Wire, input: BuildInput)
    requires Peppol.Parse(c, w).Returned? && Peppol.Parse(c, w).message.error.None? && Buildable(input)
    requires FirstPayload(Peppol.Parse(c, w).message) == Some(Delivered(input))
    ensures RoutesAsBuilt(Peppol.Parse(c, w).message, input.arguments)
  {
    var rootName, payload := RootName(input.arguments.documentType).value, ParseXml(input.payload).value;
    var header := AcceptedIsRoutedBy(c, w);
    BuiltHeaderIsRead(c, input.arguments, rootName, input.now, payload, header);
    BuiltHeaderRoutes(Peppol.Parse(c, w).message, header, input.arguments, rootName, input.now);
  }

  /** The routing fields of an accepted message that agrees with a build are the built ones, when the signed
      attachment is the first. */
  lemma AgreedRoutes(c: Context, w: Wire, input: BuildInput)
    requires Peppol.Parse(c, w).Returned? && Peppol.Parse(c, w).message.error.None?
    requires Buildable(input) && input.ids.attachments != [] && Agrees(Peppol.Parse(c, w).message, input)
    requires w.attachments.first == Some(AttachmentIdOf(input))
    ensures RoutesAsBuilt(Peppol.Parse(c, w).message, input.arguments)
  {
    ResultsAreStaged(c, w);
    FirstPayloadRoutes(c, w, input);
  }

  /** Otherwise they are those of whatever document comes first: routing looks at nothing else of the signed
      content than the participants that the header block names. */
  lemma FirstAttachmentRoutes(c: Context, p: Progress, i: BuildInput, other: BuildInput)
    requires HonestHeader(i) && Buildable(other) && TidyArguments(other.arguments) && Tidy(other.now)
    requires TidyString(RootName(other.arguments.documentType).value)
    requires ParseXml(other.payload).value.tag != StandardBusinessDocumentHeader
    requires p.fields.envelope.Some? && RequiredUserMessage(p.fields.envelope.value) == Ok(UserMessageModel(i))
    requires FirstPayload(p.fields) == Some(Delivered(other))
    requires other.arguments.sender == i.arguments.sender && other.arguments.recipient == i.arguments.recipient
    requires c.schemaValid(RoutingHeaderElement(other.arguments, RootName(other.arguments.documentType).value,
                                                other.now))
    requires c.acceptor.Some? ==> c.acceptor.value(Plain(i.arguments.recipient)) == Accepted
    ensures ProcessSbdh(c, p).Continue?
    ensures ProcessSbdh(c, p).progress.fields
         == p.fields.(sender := Some(Plain(i.arguments.sender)), recipient := Some(Plain(i.arguments.recipient)),
                      documentType := Some(Plain(Print(other.arguments.documentType))),
                      documentScheme := Some(Plain(BUSDOX_DOCID_QNS)), process := Some(Plain(other.arguments.process)))
  {
    var rootName := RootName(other.arguments.documentType).value;
    var header := BusinessHeaderModel(other.arguments, rootName, other.now);
    HonestParties(i);
    RoutingHeaderIsRead(c, other.arguments, rootName, other.now, ParseXml(other.payload).value);
    HonestParticipants(header, other.arguments, rootName, other.now);
    HonestParticipantsAgree(UserMessageModel(i), header, i.arguments);
    HonestDocumentIsRouted(c, UserMessageModel(i), header, other.arguments, p);
    SbdhRoutes(c, p, UserMessageModel(i), header);
  }
}
