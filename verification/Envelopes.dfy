/** Where the parts of a loaded envelope come from in its document. */
module Envelopes {
  import opened Terms
  import opened XmlMapping
  import opened Schemas
  import opened Documents
  import opened Dsig
  import opened Messages

  /** A single-valued field of a class, with its own class. */
  predicate HasOne(s: Schema, t: Tag, inner: Schema) {
    Single(FieldFor(s, t)) && FieldFor(s, t).schema == inner
  }

  predicate Requires(s: Schema, t: Tag) {
    FieldFor(s, t).ChildField? && FieldFor(s, t).multiplicity.One?
  }

  lemma FieldHere(s: Schema)
    requires s.ChildField?
    ensures FieldFor(s, s.tag) == s
  {
  }

  lemma FieldLater(s: Schema, t: Tag)
    requires !s.End? && (s.ChildField? ==> s.tag != t)
    ensures FieldFor(s, t) == FieldFor(s.rest, t)
  {
  }

  lemma EnvelopeFields()
    ensures HasOne(ENVELOPE, Header, HEADER) && Requires(ENVELOPE, Header)
    ensures HasOne(HEADER, Security, SECURITY) && Requires(HEADER, Security)
    ensures HasOne(HEADER, Messaging, MESSAGING) && Requires(HEADER, Messaging)
  {
    FieldHere(ENVELOPE);
    FieldHere(HEADER);
    FieldLater(HEADER, Messaging);
    FieldHere(HEADER.rest);
  }

  lemma SecurityFields()
    ensures HasOne(SECURITY, Signature, SIGNATURE)
  {
    FieldLater(SECURITY, Signature);
    FieldLater(SECURITY.rest, Signature);
    FieldLater(SECURITY.rest.rest, Signature);
    FieldHere(SECURITY.rest.rest.rest);
  }

  lemma SignatureFields()
    ensures HasOne(SIGNATURE, SignedInfo, SIGNED_INFO) && Requires(SIGNATURE, SignedInfo)
    ensures FieldFor(SIGNATURE, SignatureValue).ChildField? && Requires(SIGNATURE, SignatureValue)
    ensures HasText(FieldFor(SIGNATURE, SignatureValue).schema)
  {
    FieldHere(SIGNATURE);
    FieldLater(SIGNATURE, SignatureValue);
    FieldHere(SIGNATURE.rest);
  }

  function SignatureIn(doc: Element): Element {
    FirstTagged(FirstTagged(FirstTagged(doc, Header), Security), Signature)
  }

  /** The references that a loaded envelope's signature makes. */
  function ReferencesIn(envelope: Model): seq<Model> {
    ReferencesOf(Child(SecurityOf(envelope), Signature))
  }

  /** Some element reference resolves to this element. */
  predicate Resolves(references: seq<Model>, index: map<string, Element>, e: Element) {
    exists r | r in references :: !IsCid(UriOf(r)) && Target(r, index) == Some(e)
  }

  /** A signature that covers a Messaging element covers the one in the header. The library looks covered
      elements up by tag and does not ask this; a caller can, before a document is handed on. */
  predicate HeaderCovered(doc: Element) {
    var envelope, index := Load(ENVELOPE, doc), IndexById(doc);
    envelope.Ok? && index.Ok? && CoversTag(ReferencesIn(envelope.value), index.value, Messaging) ==>
      Resolves(ReferencesIn(envelope.value), index.value, MessagingIn(doc))
  }

  /** All Messaging elements of a document are one. */
  ghost predicate OneMessaging(doc: Element) {
    forall a, b :: a in Nodes(doc) && b in Nodes(doc) && a.tag == Messaging && b.tag == Messaging ==> a == b
  }

  /** Where there is one Messaging element, covering it is covering the header. */
  lemma OneMessagingIsCovered(doc: Element)
    requires OneMessaging(doc)
    ensures HeaderCovered(doc)
  {
    var envelope, index := Load(ENVELOPE, doc), IndexById(doc);
    if envelope.Ok? && index.Ok? && CoversTag(ReferencesIn(envelope.value), index.value, Messaging) {
      var r :| r in ReferencesIn(envelope.value) && !IsCid(UriOf(r)) && Target(r, index.value).Some?
               && Target(r, index.value).value.tag == Messaging;
      IndexedIsNode(doc, WithoutHash(UriOf(r)));
      MessagingIsLoaded(doc);
      assert Target(r, index.value) == Some(MessagingIn(doc));
    }
  }

  lemma IndexedIsNode(doc: Element, id: string)
    requires IndexById(doc).Ok? && id in IndexById(doc).value
    ensures IndexById(doc).value[id] in Nodes(doc)
  {
    IndexIsExact(doc);
    IdEntriesAreNodes(doc);
    assert IdEntry(id, IndexById(doc).value[id]) in IdAttributes(doc);
  }

  /** A document node whose own text, stripped, is the loaded text of a child model. */
  lemma LoadedText(s: Schema, e: Element)
    requires Load(s, e).Ok? && HasText(s)
    ensures Load(s, e).value.text == StrippedText(e.text)
  {
    ProjectText(s, ToDict(e));
  }

  lemma CryptographicText(t: Text)
    requires !Trim(t).Plain?
    ensures Trim(t) == t
  {
  }

  function MessagingIn(doc: Element): Element {
    FirstTagged(FirstTagged(doc, Header), Messaging)
  }

  /** The messaging model is loaded from the only Messaging child of the only Header child. */
  lemma MessagingIsLoaded(doc: Element)
    requires Load(ENVELOPE, doc).Ok?
    ensures Load(MESSAGING, MessagingIn(doc)) == Ok(MessagingOf(Load(ENVELOPE, doc).value))
    ensures Tagged(doc.children, Header) == [FirstTagged(doc, Header)]
    ensures Tagged(FirstTagged(doc, Header).children, Messaging) == [MessagingIn(doc)]
    ensures MessagingIn(doc) in Nodes(doc) && MessagingIn(doc).tag == Messaging
  {
    EnvelopeFields();
    LoadedChild(ENVELOPE, doc, Header);
    LoadedChild(HEADER, FirstTagged(doc, Header), Messaging);
    FirstTaggedIsInside(doc, Header);
    FirstTaggedIsInside(FirstTagged(doc, Header), Messaging);
  }

  /** A dumped block in the header is loaded as what its dump preserves. */
  lemma HeaderBlockIsLoaded(doc: Element, messaging: Model)
    requires Load(ENVELOPE, doc).Ok? && MessagingIn(doc) == Dump(MESSAGING, Messaging, messaging)
    ensures MessagingOf(Load(ENVELOPE, doc).value) == Norm(MESSAGING, messaging)
  {
    MessagingIsLoaded(doc);
    MessagingAliases();
    LoadDump(MESSAGING, Messaging, messaging);
  }

  lemma SecurityIsLoaded(doc: Element)
    requires Load(ENVELOPE, doc).Ok?
    ensures Load(SECURITY, FirstTagged(FirstTagged(doc, Header), Security)) == Ok(SecurityOf(Load(ENVELOPE, doc).value))
    ensures Nodes(FirstTagged(FirstTagged(doc, Header), Security)) <= Nodes(doc)
  {
    EnvelopeFields();
    LoadedChild(ENVELOPE, doc, Header);
    LoadedChild(HEADER, FirstTagged(doc, Header), Security);
    FirstTaggedIsInside(doc, Header);
    FirstTaggedIsInside(FirstTagged(doc, Header), Security);
  }

  /** The signature model is loaded from the document's signature element, and its SignedInfo from the
      element whose canonical form is verified. */
  lemma SignatureIsLoaded(doc: Element)
    requires Load(ENVELOPE, doc).Ok? && OptionalChild(SecurityOf(Load(ENVELOPE, doc).value), Signature).Some?
    ensures var signature := Child(SecurityOf(Load(ENVELOPE, doc).value), Signature);
            && Load(SIGNATURE, SignatureIn(doc)) == Ok(signature)
            && Load(SIGNED_INFO, SignedInfoIn(doc)) == Ok(Child(signature, SignedInfo))
    ensures Nodes(SignatureIn(doc)) <= Nodes(doc)
  {
    SecurityIsLoaded(doc);
    SecurityFields();
    LoadedChild(SECURITY, FirstTagged(FirstTagged(doc, Header), Security), Signature);
    FirstTaggedIsInside(FirstTagged(FirstTagged(doc, Header), Security), Signature);
    SignatureFields();
    LoadedChild(SIGNATURE, SignatureIn(doc), SignedInfo);
  }

  lemma SignatureValueText(e: Element, t: Text)
    requires Load(SIGNATURE, e).Ok? && TextOf(Child(Load(SIGNATURE, e).value, SignatureValue)) == t && !t.Plain?
    ensures exists n | n in Nodes(e) :: n.text == t
  {
    SignatureFields();
    LoadedChild(SIGNATURE, e, SignatureValue);
    var value := FirstTagged(e, SignatureValue);
    LoadedText(FieldFor(SIGNATURE, SignatureValue).schema, value);
    CryptographicText(value.text);
    FirstTaggedIsInside(e, SignatureValue);
    assert value in Nodes(value);
  }

  /** A verified signature value is the text of a node of the document. */
  lemma SignatureValueIsInside(doc: Element, signature: Model, certificate: Certificate)
    requires Load(ENVELOPE, doc).Ok?
    requires OptionalChild(SecurityOf(Load(ENVELOPE, doc).value), Signature) == Some(signature)
    requires VerifySignature(signature, SignedInfoIn(doc), certificate) == Verified
    ensures exists n | n in Nodes(doc) ::
              n.text == SignatureText(certificate.key, SignatureAlgorithmOf(signature), Xml(SignedInfoIn(doc)))
  {
    SignatureIsLoaded(doc);
    SignatureValueText(SignatureIn(doc),
                       SignatureText(certificate.key, SignatureAlgorithmOf(signature), Xml(SignedInfoIn(doc))));
  }

  // ---------------------------------------------------------------- raw paths through a dumped block

  /** `child` is the only child of `e` with this tag. */
  predicate OnlyTagged(e: Element, t: Tag, child: Element) {
    Tagged(e.children, t) == [child]
  }

  lemma PathStep(e: Element, tags: seq<Tag>, child: Element)
    requires tags != [] && OnlyTagged(e, tags[0], child)
    ensures Path([e], tags) == Path([child], tags[1..])
  {
    assert ChildrenTagged([e], tags[0]) == [child];
  }

  /** Following tags that each occur once. */
  lemma {:induction false} PathThrough(es: seq<Element>, tags: seq<Tag>)
    requires |es| == |tags| + 1
    requires forall i :: 0 <= i < |tags| ==> OnlyTagged(es[i], tags[i], es[i + 1])
    ensures Path([es[0]], tags) == [es[|tags|]]
  {
    if tags != [] {
      PathStep(es[0], tags, es[1]);
      PathThrough(es[1..], tags[1..]);
    }
  }

  lemma TextAtPath(es: seq<Element>, tags: seq<Tag>)
    requires |es| == |tags| + 1
    requires forall i :: 0 <= i < |tags| ==> OnlyTagged(es[i], tags[i], es[i + 1])
    ensures FindText(es[0], tags) == es[|tags|].text
  {
    PathThrough(es, tags);
  }

  lemma BlockIsFound(doc: Element, header: Element, messaging: Element)
    requires OnlyTagged(doc, Header, header) && OnlyTagged(header, Messaging, messaging)
    ensures Find(doc, MESSAGING_PATH) == Some(messaging)
  {
    PathThrough([doc, header, messaging], MESSAGING_PATH);
  }

  /** A field with one value is dumped as one element. */
  lemma DumpedChild(s: Schema, tag: Tag, m: Model, t: Tag, inner: Schema, child: Model)
    requires DistinctAliases(s) && Nests(s, t, inner) && Children(m, t) == [child]
    ensures OnlyTagged(Dump(s, tag, m), t, Dump(inner, t, child))
  {
    DumpedTagged(s, {}, m, t);
    assert DumpAll(inner, t, [child]) == [Dump(inner, t, child)];
  }

  /** Children tagged `t` are of class `inner`. */
  predicate Nests(s: Schema, t: Tag, inner: Schema) {
    FieldFor(s, t).ChildField? && FieldFor(s, t).schema == inner
  }

  /** A property is still found by its name after a dump. */
  lemma {:induction false} PropertySurvivesDump(properties: seq<Model>, name: string)
    requires name != ""
    ensures FindProperty(NormAll(PROPERTY, properties), name)
         == if FindProperty(properties, name).None? then None
            else Some(Norm(PROPERTY, FindProperty(properties, name).value))
  {
    if properties != [] {
      NormAttributeSome(PROPERTY, properties[0], Name, name);
      PropertySurvivesDump(properties[1..], name);
    }
  }

  lemma AttributeLater(s: Schema, n: AttributeName)
    requires !s.End? && (s.AttributeField? ==> s.name != n)
    ensures HasAttribute(s, n) == HasAttribute(s.rest, n)
  {
  }

  lemma AttributeHere(s: Schema, n: AttributeName)
    requires s.AttributeField? && s.name == n
    ensures HasAttribute(s, n)
  {
  }

  lemma PartInfoHref()
    ensures HasAttribute(PART_INFO, Href)
  {
    AttributeLater(PART_INFO, Href);
    AttributeLater(PART_INFO.rest, Href);
    AttributeLater(PART_INFO.rest.rest, Href);
    AttributeHere(PART_INFO.rest.rest.rest, Href);
  }

  lemma PartInfoFields()
    ensures Nests(PART_INFO, PartProperties, PROPERTIES) && Nests(PROPERTIES, Property, PROPERTY)
  {
    FieldLater(PART_INFO, PartProperties);
    FieldLater(PART_INFO.rest, PartProperties);
    FieldHere(PART_INFO.rest.rest);
    FieldHere(PROPERTIES);
  }

  lemma UserMessageFields()
    ensures Nests(MESSAGING, UserMessage, USER_MESSAGE)
    ensures Nests(USER_MESSAGE, MessageInfo, MESSAGE_INFO)
    ensures Nests(MESSAGE_INFO, MessageId, REQUIRED_TEXT)
    ensures Nests(USER_MESSAGE, PayloadInfo, PAYLOAD_INFO)
    ensures Nests(PAYLOAD_INFO, PartInfo, PART_INFO)
  {
    FieldLater(MESSAGING, UserMessage);
    FieldHere(MESSAGING.rest);
    FieldHere(USER_MESSAGE);
    FieldLater(MESSAGE_INFO, MessageId);
    FieldHere(MESSAGE_INFO.rest);
    FieldHere(PAYLOAD_INFO);
    PayloadInfoField();
  }

  lemma PayloadInfoField()
    ensures Nests(USER_MESSAGE, PayloadInfo, PAYLOAD_INFO)
  {
    FieldLater(USER_MESSAGE, PayloadInfo);
    FieldLater(USER_MESSAGE.rest, PayloadInfo);
    FieldLater(USER_MESSAGE.rest.rest, PayloadInfo);
    FieldLater(USER_MESSAGE.rest.rest.rest, PayloadInfo);
    FieldHere(USER_MESSAGE.rest.rest.rest.rest);
  }
}
