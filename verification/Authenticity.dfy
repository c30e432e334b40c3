/** What a verified signal says about the party that signed it. */
module Authenticity {
  import opened Terms
  import opened XmlMapping
  import opened Schemas
  import opened Dsig
  import opened Errors
  import opened Messages
  import opened Envelopes
  import opened Receipts

  // ---------------------------------------------------------------- signed references, read back

  lemma SignedInfoFields()
    ensures Nests(SIGNED_INFO, Reference, REFERENCE)
  {
    FieldLater(SIGNED_INFO, Reference);
    FieldLater(SIGNED_INFO.rest, Reference);
    FieldHere(SIGNED_INFO.rest.rest);
  }

  /** Loading a SignedInfo element gives the references that were dumped into it. */
  lemma SignedReferencesAreLoaded(references: seq<Model>)
    requires Load(SIGNED_INFO, SignedInfoElement(references)).Ok?
    ensures Children(Load(SIGNED_INFO, SignedInfoElement(references)).value, Reference)
         == NormAll(REFERENCE, references)
  {
    SignedInfoAliases();
    LoadDump(SIGNED_INFO, SignedInfo, SignedInfoModel(references));
    SignedInfoFields();
    NormChildren(SIGNED_INFO, SignedInfoModel(references), Reference);
  }

  lemma DumpedTransform(uri: string, transform: string, content: Bytes)
    ensures |TransformsOf(Norm(REFERENCE, ReferenceModel(uri, transform, content)))| == 1
    ensures AttributeOf(TransformsOf(Norm(REFERENCE, ReferenceModel(uri, transform, content)))[0], Algorithm).GetOr("")
         == transform
  {
    var r := ReferenceModel(uri, transform, content);
    NormChild(REFERENCE, r, Transforms);
    NormChildren(TRANSFORMS, Child(r, Transforms), Transform);
    assert TransformsOf(r) == [AlgorithmModel(transform)];
    NormEach(TRANSFORM, TransformsOf(r));
    NormAttributeOr(TRANSFORM, AlgorithmModel(transform), Algorithm);
  }

  /** A built reference, read back, verifies only under its own transform and on its own content. */
  lemma DumpedReferenceVerifies(uri: string, transform: string, built: Bytes, allowed: string, content: Bytes)
    requires DigestMatches(Norm(REFERENCE, ReferenceModel(uri, transform, built)), allowed, content) == Matches
    requires allowed != ""
    ensures transform == allowed && built == content
  {
    var r := ReferenceModel(uri, transform, built);
    DumpedTransform(uri, transform, built);
    assert TransformsOf(Norm(REFERENCE, r))[0] in TransformsOf(Norm(REFERENCE, r));
    DigestValueSurvivesDump(r);
    assert DigestValueOf(r) == DigestText(SHA256, built);
  }

  // ---------------------------------------------------------------- the messaging block

  lemma {:induction false} SignalDigestsAreChecked(references: seq<Model>, index: map<string, Element>)
    requires SignalDigestProblem(references, index).None?
    ensures forall r | r in references :: Target(r, index).Some?
              && ElementDigestMatches(r, Target(r, index).value) == Matches
  {
    if references != [] {
      SignalDigestsAreChecked(references[1..], index);
      assert references == [references[0]] + references[1..];
    }
  }

  /** An element reference, read back, verifies only on its own element. */
  lemma DumpedElementVerifies(id: string, built: Element, e: Element)
    requires ElementDigestMatches(Norm(REFERENCE, ElementReference(id, built)), e) == Matches
    ensures e == built
  {
    DumpedReferenceVerifies("#" + id, EXCLUSIVE_C14N, Xml(built), EXCLUSIVE_C14N, Xml(e));
  }

  /** Every element reference resolves and verifies. */
  ghost predicate EachVerifies(references: seq<Model>, index: map<string, Element>) {
    forall r | r in references && !IsCid(UriOf(r)) ::
      Target(r, index).Some? && ElementDigestMatches(r, Target(r, index).value) == Matches
  }

  /** Two built element references, and payload references, read back, resolve to the two elements only. */
  lemma ResolvedIsBuilt(references: seq<Model>, id: string, first: Element, id': string, second: Element,
                        index: map<string, Element>, e: Element)
    requires |references| >= 2 && references[0] == ElementReference(id, first)
    requires references[1] == ElementReference(id', second)
    requires forall k :: 2 <= k < |references| ==> IsCid(UriOf(references[k]))
    requires EachVerifies(NormAll(REFERENCE, references), index) && Resolves(NormAll(REFERENCE, references), index, e)
    ensures e == first || e == second
  {
    var read := NormAll(REFERENCE, references);
    var r :| r in read && !IsCid(UriOf(r)) && Target(r, index) == Some(e);
    var k :| 0 <= k < |read| && read[k] == r;
    ReadReference(references, k);
    VerifiedIsBuilt(references[k], k, id, first, id', second, e);
  }

  lemma ReadReference(references: seq<Model>, k: nat)
    requires k < |references|
    ensures NormAll(REFERENCE, references)[k] == Norm(REFERENCE, references[k])
    ensures UriOf(Norm(REFERENCE, references[k])) == UriOf(references[k])
  {
    NormEach(REFERENCE, references);
    UriSurvivesDump(references[k]);
  }

  lemma VerifiedIsBuilt(reference: Model, k: nat, id: string, first: Element, id': string, second: Element, e: Element)
    requires if k == 0 then reference == ElementReference(id, first) else reference == ElementReference(id', second)
    requires ElementDigestMatches(Norm(REFERENCE, reference), e) == Matches
    ensures e == first || e == second
  {
    if k == 0 {
      DumpedElementVerifies(id, first, e);
    } else {
      DumpedElementVerifies(id', second, e);
    }
  }

  lemma ResolvedIsSigned(ids: References, messaging: Model, payloads: seq<Model>, index: map<string, Element>,
                         e: Element)
    requires forall r | r in payloads :: IsCid(UriOf(r))
    requires EachVerifies(NormAll(REFERENCE, HeaderReferences(ids, messaging) + payloads), index)
    requires Resolves(NormAll(REFERENCE, HeaderReferences(ids, messaging) + payloads), index, e) && e.tag == Messaging
    ensures e == Dump(MESSAGING, Messaging, messaging)
  {
    ResolvedIsBuilt(HeaderReferences(ids, messaging) + payloads, ids.messagingId, Dump(MESSAGING, Messaging, messaging),
                    ids.bodyId, Dump(BODY, Body, BodyModel(ids)), index, e);
  }

  /** Signed header references, read back, that cover a Messaging element resolve to the signed block, and
      to another Messaging element never. */
  lemma CoveredMessagingIsSigned(ids: References, messaging: Model, payloads: seq<Model>, index: map<string, Element>)
    requires forall r | r in payloads :: IsCid(UriOf(r))
    requires EachVerifies(NormAll(REFERENCE, HeaderReferences(ids, messaging) + payloads), index)
    requires CoversTag(NormAll(REFERENCE, HeaderReferences(ids, messaging) + payloads), index, Messaging)
    ensures forall e: Element :: e.tag == Messaging ==>
              (Resolves(NormAll(REFERENCE, HeaderReferences(ids, messaging) + payloads), index, e)
               <==> e == Dump(MESSAGING, Messaging, messaging))
  {
    var read := NormAll(REFERENCE, HeaderReferences(ids, messaging) + payloads);
    var r :| r in read && !IsCid(UriOf(r)) && Target(r, index).Some? && Target(r, index).value.tag == Messaging;
    assert Resolves(read, index, Target(r, index).value);
    ResolvedIsSigned(ids, messaging, payloads, index, Target(r, index).value);
    forall e: Element | e.tag == Messaging && Resolves(read, index, e)
      ensures e == Dump(MESSAGING, Messaging, messaging)
    {
      ResolvedIsSigned(ids, messaging, payloads, index, e);
    }
  }

  // ---------------------------------------------------------------- reading a genuine signal

  lemma SignalFields()
    ensures Nests(MESSAGING, SignalMessage, SIGNAL_MESSAGE)
    ensures Nests(SIGNAL_MESSAGE, MessageInfo, MESSAGE_INFO)
    ensures Nests(SIGNAL_MESSAGE, Receipt, RECEIPT)
    ensures Nests(SIGNAL_MESSAGE, Error, ERROR)
  {
    FieldHere(MESSAGING);
    FieldHere(SIGNAL_MESSAGE);
    FieldLater(SIGNAL_MESSAGE, Receipt);
    FieldLater(SIGNAL_MESSAGE.rest, Receipt);
    FieldHere(SIGNAL_MESSAGE.rest.rest);
    FieldLater(SIGNAL_MESSAGE, Error);
    FieldLater(SIGNAL_MESSAGE.rest, Error);
    FieldLater(SIGNAL_MESSAGE.rest.rest, Error);
    FieldHere(SIGNAL_MESSAGE.rest.rest.rest);
  }

  lemma MessageInfoFields()
    ensures Nests(MESSAGE_INFO, RefToMessageId, REQUIRED_TEXT)
  {
    FieldLater(MESSAGE_INFO, RefToMessageId);
    FieldLater(MESSAGE_INFO.rest, RefToMessageId);
    FieldHere(MESSAGE_INFO.rest.rest);
  }

  const NR_PART: Schema := ChildField(Reference, AtLeastOne, REFERENCE, End)

  lemma ReceiptFields()
    ensures Nests(RECEIPT, NonRepudiationInformation, NON_REPUDIATION_INFORMATION)
    ensures Nests(NON_REPUDIATION_INFORMATION, MessagePartNRInformation, NR_PART)
    ensures Nests(NR_PART, Reference, REFERENCE)
  {
    FieldHere(RECEIPT);
    FieldHere(NON_REPUDIATION_INFORMATION);
    FieldHere(NR_PART);
  }

  lemma {:induction false} PartsReadBack(part: Schema, inner: Schema, references: seq<Model>, parts: seq<Model>)
    requires Nests(part, Reference, inner)
    requires |parts| == |references|
    requires forall i :: 0 <= i < |parts| ==> Children(parts[i], Reference) == [references[i]]
    ensures ReferencesInside(NormAll(part, parts)) == NormAll(inner, references)
  {
    if parts != [] {
      NormChildren(part, parts[0], Reference);
      assert NormAll(inner, [references[0]]) == [Norm(inner, references[0])];
      PartsReadBack(part, inner, references[1..], parts[1..]);
    }
  }

  /** A receipt that acknowledges these references. */
  predicate Acknowledges(receipt: Model, references: seq<Model>) {
    Children(Child(receipt, NonRepudiationInformation), MessagePartNRInformation) == PartModels(references)
  }

  lemma ReceiptModelAcknowledges(references: seq<Model>)
    ensures Acknowledges(ReceiptModel(references), references)
  {
    assert references == [] ==> PartModels(references) == [];
  }

  lemma PartsHold(references: seq<Model>)
    ensures forall i :: 0 <= i < |references| ==> Children(PartModels(references)[i], Reference) == [references[i]]
  {
  }

  lemma PartsInsideReadBack(information: Schema, part: Schema, inner: Schema, m: Model, references: seq<Model>,
                            parts: seq<Model>)
    requires Nests(information, MessagePartNRInformation, part) && Nests(part, Reference, inner)
    requires Children(m, MessagePartNRInformation) == parts && parts == PartModels(references)
    ensures ReferencesInside(Children(Norm(information, m), MessagePartNRInformation)) == NormAll(inner, references)
  {
    NormChildren(information, m, MessagePartNRInformation);
    PartsHold(references);
    PartsReadBack(part, inner, references, parts);
  }

  lemma ReceiptReadsBack(receipt: Schema, information: Schema, part: Schema, inner: Schema, r: Model,
                         references: seq<Model>)
    requires Nests(receipt, NonRepudiationInformation, information)
    requires Nests(information, MessagePartNRInformation, part)
    requires Nests(part, Reference, inner)
    requires Acknowledges(r, references)
    ensures ReferencesInside(Children(Child(Norm(receipt, r), NonRepudiationInformation), MessagePartNRInformation))
         == NormAll(inner, references)
  {
    NormChild(receipt, r, NonRepudiationInformation);
    PartsInsideReadBack(information, part, inner, Child(r, NonRepudiationInformation), references,
                        PartModels(references));
  }

  /** A grandchild's text, read back. */
  lemma GrandchildReadsBack(s: Schema, t: Tag, inner: Schema, u: Tag, text: Schema, m: Model)
    requires Nests(s, t, inner) && Nests(inner, u, text) && HasText(text)
    ensures OptionalChild(Child(Norm(s, m), t), u).Some? <==> OptionalChild(Child(m, t), u).Some?
    ensures TextOf(Child(Child(Norm(s, m), t), u)) == Trim(TextOf(Child(Child(m, t), u)))
  {
    NormChild(s, m, t);
    NormChild(inner, Child(m, t), u);
    NormTextOr(text, Child(Child(m, t), u));
  }

  /** A list of attributed children, read back. */
  lemma ChildrenReadBack(s: Schema, t: Tag, inner: Schema, n: AttributeName, m: Model)
    requires Nests(s, t, inner) && HasAttribute(inner, n)
    ensures |Children(Norm(s, m), t)| == |Children(m, t)|
    ensures forall i :: 0 <= i < |Children(m, t)| ==>
              AttributeOf(Children(Norm(s, m), t)[i], n).GetOr("") == AttributeOf(Children(m, t)[i], n).GetOr("")
  {
    NormChildren(s, m, t);
    NormEach(inner, Children(m, t));
    forall i | 0 <= i < |Children(m, t)| {
      NormAttributeOr(inner, Children(m, t)[i], n);
    }
  }

  lemma {:induction false} ComparablesSurviveDump(references: seq<Model>)
    ensures Comparables(NormAll(REFERENCE, references)) == Comparables(references)
  {
    NormEach(REFERENCE, references);
    forall i | 0 <= i < |references|
      ensures Comparables(NormAll(REFERENCE, references))[i] == Comparables(references)[i]
    {
      ComparableSurvivesDump(references[i]);
    }
  }

  /** What the reader of a signal's messaging block finds: the error or the acknowledged references of the
      message it answers, and that message's identifier, stripped and absent only when empty. */
  ghost predicate Answers(envelope: Model, m: Message) {
    var s := Signal(envelope, OriginalMessageId(envelope));
    && |SignalMessagesOf(envelope)| == 1
    && s.originalMessageId == (if m.messageId == Plain("") then None else Some(Trim(m.messageId)))
    && (m.error.Some? ==>
          && |ErrorsOf(s)| == 1
          && AttributeOf(ErrorsOf(s)[0], ErrorCode).GetOr("") == ErrorCodeOf(m.error.value)
          && ReceiptOf(s).None?)
    && (m.error.None? ==> ErrorsOf(s) == [] && ReceiptOf(s).Some? && Receipts.Acknowledged(s) == SignedReferences(m))
  }

  lemma SignalParts(m: Message, ids: References, now: Text)
    ensures var s := SignalMessageModel(m, ids, now);
            && Child(s, MessageInfo) == MessageInfoModel(now, ids.messageId, m.messageId)
            && Children(s, Error) == (if m.error.Some? then [ErrorModel(m.error.value)] else [])
            && Children(s, Receipt) == (if m.error.None? then [ReceiptModel(SignatureReferences(m))] else [])
  {
  }

  lemma InfoParts(now: Text, messageId: string, refTo: Text)
    ensures Children(MessageInfoModel(now, messageId, refTo), RefToMessageId)
         == if refTo == Plain("") then [] else [TextModel(refTo)]
  {
  }

  lemma OriginalReadsBack(signal: Schema, info: Schema, text: Schema, s: Model, refTo: Text)
    requires Nests(signal, MessageInfo, info) && Nests(info, RefToMessageId, text) && HasText(text)
    requires Children(Child(s, MessageInfo), RefToMessageId) == if refTo == Plain("") then [] else [TextModel(refTo)]
    ensures OptionalChild(Child(Norm(signal, s), MessageInfo), RefToMessageId).Some? <==> refTo != Plain("")
    ensures TextOf(Child(Child(Norm(signal, s), MessageInfo), RefToMessageId)) == Trim(refTo)
  {
    GrandchildReadsBack(signal, MessageInfo, info, RefToMessageId, text, s);
  }

  lemma ErrorReadsBack(signal: Schema, error: Schema, s: Model, refused: Option<Refusal>)
    requires Nests(signal, Error, error) && HasAttribute(error, ErrorCode)
    requires Children(s, Error) == if refused.Some? then [ErrorModel(refused.value)] else []
    ensures if refused.None? then Children(Norm(signal, s), Error) == []
            else |Children(Norm(signal, s), Error)| == 1
                 && AttributeOf(Children(Norm(signal, s), Error)[0], ErrorCode).GetOr("") == ErrorCodeOf(refused.value)
  {
    ChildrenReadBack(signal, Error, error, ErrorCode, s);
  }

  lemma AcknowledgedReadsBack(signal: Schema, receipt: Schema, information: Schema, part: Schema, inner: Schema,
                              s: Model,
                              r: Model, references: seq<Model>)
    requires Nests(signal, Receipt, receipt) && Nests(receipt, NonRepudiationInformation, information)
    requires Nests(information, MessagePartNRInformation, part) && Nests(part, Reference, inner)
    requires Children(s, Receipt) == [r] && Acknowledges(r, references)
    ensures OptionalChild(Norm(signal, s), Receipt).Some?
    ensures ReferencesInside(Children(Child(Child(Norm(signal, s), Receipt), NonRepudiationInformation),
                                      MessagePartNRInformation))
         == NormAll(inner, references)
  {
    NormChild(signal, s, Receipt);
    ReceiptReadsBack(receipt, information, part, inner, r, references);
  }

  lemma SignalMessageReadsBack(messaging: Schema, signal: Schema, m: Message, ids: References, now: Text, read: Model)
    requires Nests(messaging, SignalMessage, signal) && read == Norm(messaging, SignalMessagingModel(m, ids, now))
    ensures Children(read, SignalMessage) == [Norm(signal, SignalMessageModel(m, ids, now))]
  {
    NormChildren(messaging, SignalMessagingModel(m, ids, now), SignalMessage);
    NormEach(signal, Children(SignalMessagingModel(m, ids, now), SignalMessage));
  }

  lemma GenuineSignalAnswers(envelope: Model, m: Message, ids: References, now: Text)
    requires MessagingOf(envelope) == Norm(MESSAGING, SignalMessagingModel(m, ids, now))
    ensures Answers(envelope, m)
  {
    SignalFields();
    MessageInfoFields();
    ReceiptFields();
    ErrorFields();
    SignalMessageReadsBack(MESSAGING, SIGNAL_MESSAGE, m, ids, now, MessagingOf(envelope));
    var s := SignalMessageModel(m, ids, now);
    SignalParts(m, ids, now);
    InfoParts(now, ids.messageId, m.messageId);
    OriginalReadsBack(SIGNAL_MESSAGE, MESSAGE_INFO, REQUIRED_TEXT, s, m.messageId);
    ErrorReadsBack(SIGNAL_MESSAGE, ERROR, s, m.error);
    if m.error.None? {
      ReceiptModelAcknowledges(SignatureReferences(m));
      AcknowledgedReadsBack(SIGNAL_MESSAGE, RECEIPT, NON_REPUDIATION_INFORMATION, NR_PART, REFERENCE, s,
                            ReceiptModel(SignatureReferences(m)), SignatureReferences(m));
    } else {
      NormChild(SIGNAL_MESSAGE, s, Receipt);
    }
    ComparablesSurviveDump(SignatureReferences(m));
  }

  lemma ErrorFields()
    ensures HasAttribute(ERROR, ErrorCode) && HasText(REQUIRED_TEXT)
  {
  }
}
