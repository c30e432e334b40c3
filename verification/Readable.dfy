/** Which answers the sender can read (as4/core/receipt.py, as4/core/exchange.py). */
module Readable {
  import opened Terms
  import opened XmlMapping
  import opened Schemas
  import opened Documents
  import opened Dsig
  import opened Errors
  import opened Messages
  import opened Receipts
  import opened Envelopes
  import opened Authenticity
  import opened Peppol
  import opened Acceptance
  import opened Agreement
  import opened Completeness
  import opened Construction

  /** What a receiving exchange is configured with: an RSA key pair, usable identifiers, a clock. */
  predicate SignalPrepared(own: Credentials, ids: References, now: Text) {
    && own.certificate.rsa && own.certificate.key == own.key
    && ids.messagingId != "" && ids.bodyId != "" && ids.signatureTokenId != ""
    && !Blank(Plain(ids.messageId)) && !Blank(now)
  }

  /** The messages whose answer can be read: the identifier is not blank, and absent only from an error
      signal; an error has a code and a detail; the acknowledged references survive a dump. */
  predicate Answerable(m: Message) {
    && (m.messageId == Plain("") ==> m.error.Some?)
    && (m.messageId != Plain("") ==> !Blank(m.messageId))
    && (m.error.Some? ==> ErrorCodeOf(m.error.value) != "" && !Blank(Plain(DetailOf(m.error.value))))
    && (m.error.None? ==> AllComplete(REFERENCE, SignatureReferences(m)))
  }

  // ---------------------------------------------------------------- completeness, class by class

  lemma TextIsComplete(t: Text)
    ensures Complete(REQUIRED_TEXT, TextModel(t)) <==> !Blank(t)
  {
  }

  lemma BuiltReferenceIsComplete(uri: string, transform: string, content: Bytes)
    ensures Complete(REFERENCE, ReferenceModel(uri, transform, content))
  {
    var r := ReferenceModel(uri, transform, content);
    var f := REFERENCE;
    TextIsComplete(DigestText(SHA256, content));
    assert SHA256 != "";
    CompleteChild(f, r, Model(map[], None, map[Transform := [AlgorithmModel(transform)]]));
    CompleteChild(f.rest, r, AlgorithmModel(SHA256));
    CompleteChild(f.rest.rest, r, TextModel(DigestText(SHA256, content)));
  }

  lemma SignedInfoIsComplete(references: seq<Model>)
    requires AllComplete(REFERENCE, references)
    ensures Complete(SIGNED_INFO, SignedInfoModel(references))
  {
    var m := SignedInfoModel(references);
    assert EXCLUSIVE_C14N != "" && RSA_SHA256 != "";
    CompleteChild(SIGNED_INFO, m, AlgorithmModel(EXCLUSIVE_C14N));
    CompleteChild(SIGNED_INFO.rest, m, AlgorithmModel(RSA_SHA256));
    CompleteList(SIGNED_INFO.rest.rest, m);
  }

  lemma KeyInfoIsComplete(m: Model, tokenReference: Model, token: Model)
    requires Children(m, SecurityTokenReference) == [tokenReference]
    requires Children(tokenReference, TokenReference) == [token]
    ensures Complete(KEY_INFO, m)
  {
    CompleteChild(KEY_INFO.rest, m, tokenReference);
    CompleteChild(SECURITY_TOKEN_REFERENCE.rest.rest, tokenReference, token);
  }

  lemma SignatureIsComplete(ids: References, key: Key, references: seq<Model>)
    requires AllComplete(REFERENCE, references)
    ensures Complete(SIGNATURE, SignatureOf(ids, key, references))
  {
    var m := SignatureOf(ids, key, references);
    SignedInfoIsComplete(references);
    var token := TokenReferenceModel("#" + ids.signatureTokenId);
    var tokenReference := Model(map[WsuId := ids.tokenReferenceId], None, map[TokenReference := [token]]);
    var keyInfo := Model(map[PlainId := ids.keyInfoId], None, map[SecurityTokenReference := [tokenReference]]);
    KeyInfoIsComplete(keyInfo, tokenReference, token);
    CompleteChild(SIGNATURE, m, SignedInfoModel(references));
    CompleteChild(SIGNATURE.rest, m, TextModel(Signed(key, references)));
    CompleteChild(SIGNATURE.rest.rest, m, keyInfo);
  }

  lemma TokenIsComplete(tokenId: string, certificate: Certificate)
    requires tokenId != ""
    ensures Complete(BINARY_SECURITY_TOKEN, TokenModel(tokenId, certificate))
  {
    assert BASE64_BINARY != "" && X509_V3 != "";
  }

  lemma HeaderReferencesAreComplete(ids: References, messaging: Model)
    ensures AllComplete(REFERENCE, HeaderReferences(ids, messaging))
  {
    var references := HeaderReferences(ids, messaging);
    BuiltReferenceIsComplete("#" + ids.messagingId, EXCLUSIVE_C14N, Xml(Dump(MESSAGING, Messaging, messaging)));
    BuiltReferenceIsComplete("#" + ids.bodyId, EXCLUSIVE_C14N, Xml(Dump(BODY, Body, BodyModel(ids))));
    AllCompleteIsEach(REFERENCE, references);
  }

  function SignalSecurityModel(ids: References, own: Credentials, references: seq<Model>): Model {
    Model(map[MustUnderstand := "true"], None,
          map[BinarySecurityToken := [TokenModel(ids.signatureTokenId, own.certificate)],
              Signature := [SignatureOf(ids, own.key, references)]])
  }

  lemma SignalSecurityParts(ids: References, own: Credentials, references: seq<Model>)
    ensures Children(SignalSecurityModel(ids, own, references), Signature) == [SignatureOf(ids, own.key, references)]
    ensures Children(SignalSecurityModel(ids, own, references), BinarySecurityToken)
         == [TokenModel(ids.signatureTokenId, own.certificate)]
    ensures Children(SignalSecurityModel(ids, own, references), EncryptedKey) == []
    ensures Children(SignalSecurityModel(ids, own, references), EncryptedData) == []
  {
  }

  lemma SignalSecurityIsComplete(ids: References, own: Credentials, references: seq<Model>)
    requires AllComplete(REFERENCE, references) && ids.signatureTokenId != ""
    ensures Complete(SECURITY, SignalSecurityModel(ids, own, references))
  {
    TokenIsComplete(ids.signatureTokenId, own.certificate);
    SignatureIsComplete(ids, own.key, references);
    SignalSecurityParts(ids, own, references);
    SecurityIsComplete(SECURITY, SignalSecurityModel(ids, own, references),
                       TokenModel(ids.signatureTokenId, own.certificate), SignatureOf(ids, own.key, references));
  }

  lemma SecurityIsComplete(f: Schema, m: Model, token: Model, signature: Model)
    requires f == SECURITY
    requires Children(m, BinarySecurityToken) == [token] && Children(m, Signature) == [signature]
    requires Children(m, EncryptedKey) == [] && Children(m, EncryptedData) == []
    requires Complete(BINARY_SECURITY_TOKEN, token) && Complete(SIGNATURE, signature)
    ensures Complete(f, m)
  {
    CompleteChild(f, m, token);
    CompleteAbsent(f.rest, m);
    CompleteAbsent(f.rest.rest, m);
    CompleteChild(f.rest.rest.rest, m, signature);
  }

  lemma MessageInfoIsComplete(now: Text, messageId: string, refTo: Text)
    requires !Blank(now) && !Blank(Plain(messageId))
    ensures Complete(MESSAGE_INFO, MessageInfoModel(now, messageId, refTo)) <==> refTo == Plain("") || !Blank(refTo)
  {
    var m := MessageInfoModel(now, messageId, refTo);
    TextIsComplete(now);
    TextIsComplete(Plain(messageId));
    CompleteChild(MESSAGE_INFO, m, TextModel(now));
    CompleteChild(MESSAGE_INFO.rest, m, TextModel(Plain(messageId)));
    if refTo == Plain("") {
      CompleteAbsent(MESSAGE_INFO.rest.rest, m);
    } else {
      TextIsComplete(refTo);
      CompleteChild(MESSAGE_INFO.rest.rest, m, TextModel(refTo));
    }
  }

  lemma ErrorIsComplete(r: Refusal)
    ensures Complete(ERROR, ErrorModel(r)) <==> ErrorCodeOf(r) != "" && !Blank(Plain(DetailOf(r)))
  {
    var m := ErrorModel(r);
    TextIsComplete(Plain(DetailOf(r)));
    CompleteAbsent(ERROR, m);
    CompleteChild(ERROR.rest, m, TextModel(Plain(DetailOf(r))));
    ErrorAttributesAreComplete(ERROR.rest.rest, m);
    assert AttributeOf(m, Severity).GetOr("") != "";
  }

  lemma ErrorAttributesAreComplete(f: Schema, m: Model)
    requires f == ERROR.rest.rest
    ensures Complete(f, m) <==> AttributeOf(m, ErrorCode).GetOr("") != "" && AttributeOf(m, Severity).GetOr("") != ""
  {
  }

  lemma {:induction false} PartsAreComplete(references: seq<Model>, parts: seq<Model>)
    requires |parts| == |references| && forall i :: 0 <= i < |parts| ==>
               Children(parts[i], Reference) == [references[i]]
    ensures AllComplete(NR_PART, parts) <==> AllComplete(REFERENCE, references)
  {
    if parts != [] {
      CompleteChild(NR_PART, parts[0], references[0]);
      PartsAreComplete(references[1..], parts[1..]);
    }
  }

  lemma ReceiptIsComplete(references: seq<Model>)
    ensures Complete(RECEIPT, ReceiptModel(references)) <==> AllComplete(REFERENCE, references)
  {
    var m := ReceiptModel(references);
    ReceiptModelAcknowledges(references);
    PartsHold(references);
    PartsAreComplete(references, PartModels(references));
    CompleteChild(RECEIPT, m, Child(m, NonRepudiationInformation));
    CompleteList(NON_REPUDIATION_INFORMATION, Child(m, NonRepudiationInformation));
  }

  lemma SignalMessageIsComplete(m: Message, ids: References, now: Text)
    requires !Blank(now) && !Blank(Plain(ids.messageId))
    ensures Complete(SIGNAL_MESSAGE, SignalMessageModel(m, ids, now))
       <==> (m.messageId == Plain("") || !Blank(m.messageId))
            && (m.error.Some? ==> ErrorCodeOf(m.error.value) != "" && !Blank(Plain(DetailOf(m.error.value))))
            && (m.error.None? ==> AllComplete(REFERENCE, SignatureReferences(m)))
  {
    var s := SignalMessageModel(m, ids, now);
    SignalParts(m, ids, now);
    MessageInfoIsComplete(now, ids.messageId, m.messageId);
    CompleteChild(SIGNAL_MESSAGE, s, MessageInfoModel(now, ids.messageId, m.messageId));
    CompleteAbsent(SIGNAL_MESSAGE.rest, s);
    if m.error.Some? {
      ErrorIsComplete(m.error.value);
      CompleteAnswer(SIGNAL_MESSAGE.rest.rest, s, [], [ErrorModel(m.error.value)]);
    } else {
      ReceiptIsComplete(SignatureReferences(m));
      CompleteAnswer(SIGNAL_MESSAGE.rest.rest, s, [ReceiptModel(SignatureReferences(m))], []);
    }
  }

  lemma CompleteAnswer(f: Schema, s: Model, receipts: seq<Model>, errors: seq<Model>)
    requires f == SIGNAL_MESSAGE.rest.rest && |receipts| <= 1
    requires Children(s, Receipt) == receipts && Children(s, Error) == errors
    ensures Complete(f, s) <==> AllComplete(RECEIPT, receipts) && AllComplete(ERROR, errors)
  {
    CompleteList(f.rest, s);
  }

  lemma SignalMessagingIsComplete(m: Message, ids: References, now: Text)
    ensures Complete(MESSAGING, SignalMessagingModel(m, ids, now))
       <==> Complete(SIGNAL_MESSAGE, SignalMessageModel(m, ids, now))
  {
    var b := SignalMessagingModel(m, ids, now);
    var s := SignalMessageModel(m, ids, now);
    assert Children(b, SignalMessage) == [s];
    CompleteList(MESSAGING, b);
    CompleteAbsent(MESSAGING.rest, b);
    assert AllComplete(SIGNAL_MESSAGE, [s]) <==> Complete(SIGNAL_MESSAGE, s);
  }

  lemma EnvelopeIsComplete(security: Model, messaging: Model, ids: References)
    ensures Complete(ENVELOPE, EnvelopeModel(security, messaging, ids))
       <==> Complete(SECURITY, security) && Complete(MESSAGING, messaging)
  {
    var header := HeaderModel(security, messaging);
    EnvelopeChildren(security, messaging, ids);
    CompleteChild(ENVELOPE, EnvelopeModel(security, messaging, ids), header);
    CompleteChild(ENVELOPE.rest, EnvelopeModel(security, messaging, ids), BodyModel(ids));
    CompleteChild(HEADER, header, security);
    CompleteChild(HEADER.rest, header, messaging);
  }

  // ---------------------------------------------------------------- reading the answer

  function SecurityModelOf(m: Message, own: Credentials, ids: References, now: Text): Model {
    SignalSecurityModel(ids, own, SignalReferences(m, ids, now))
  }

  lemma SignalDocumentLoads(m: Message, own: Credentials, ids: References, now: Text)
    requires SignalPrepared(own, ids, now)
    ensures var doc := SignalDocument(m, own, ids, now);
            && doc == EnvelopeElement(SecurityModelOf(m, own, ids, now), SignalMessagingModel(m, ids, now), ids)
            && (Load(ENVELOPE, doc).Ok? <==> Complete(SIGNAL_MESSAGE, SignalMessageModel(m, ids, now)))
            && (Load(ENVELOPE, doc).Ok? ==>
                  Load(ENVELOPE, doc).value == Norm(ENVELOPE, SignalEnvelope(m, own, ids, now)))
  {
    HeaderReferencesAreComplete(ids, SignalMessagingModel(m, ids, now));
    SignalSecurityIsComplete(ids, own, SignalReferences(m, ids, now));
    SignalMessagingIsComplete(m, ids, now);
    EnvelopeIsComplete(SecurityModelOf(m, own, ids, now), SignalMessagingModel(m, ids, now), ids);
    EnvelopeAliases();
    LoadDumpIsExact(ENVELOPE, Envelope, SignalEnvelope(m, own, ids, now));
  }

  /** A built envelope, read back. */
  lemma EnvelopeReadsBack(security: Model, messaging: Model, ids: References)
    ensures SecurityOf(Norm(ENVELOPE, EnvelopeModel(security, messaging, ids))) == Norm(SECURITY, security)
    ensures MessagingOf(Norm(ENVELOPE, EnvelopeModel(security, messaging, ids))) == Norm(MESSAGING, messaging)
  {
    EnvelopeNests();
    EnvelopeChildren(security, messaging, ids);
    NormChild(ENVELOPE, EnvelopeModel(security, messaging, ids), Header);
    NormChild(HEADER, HeaderModel(security, messaging), Security);
    NormChild(HEADER, HeaderModel(security, messaging), Messaging);
  }

  lemma VerifiedPairPasses(read: seq<Model>, index: map<string, Element>, e: Element, e': Element)
    requires |read| == 2 && Verifies(read[0], index, e) && Verifies(read[1], index, e')
    ensures SignalDigestProblem(read, index).None?
  {
    var rest := read[1..];
    assert rest[0] == read[1] && rest[1..] == [];
    assert SignalDigestProblem(rest, index).None?;
  }

  lemma VerifiedBlockIsCovered(read: seq<Model>, index: map<string, Element>, e: Element)
    requires read != [] && Verifies(read[0], index, e) && e.tag == Messaging
    ensures MessagingCovered in CoverageOf(read, index, {})
  {
    assert read[0] in read;
    assert CoversTag(read, index, Messaging);
  }

  /** The content of a built signal verifies. */
  lemma SignalContentVerifies(security: Model, messaging: Model, ids: References)
    requires AttributeOf(messaging, WsuId) == Some(ids.messagingId) && ids.messagingId != "" && ids.bodyId != ""
    requires DistinctIds(IdAttributes(EnvelopeElement(security, messaging, ids)))
    ensures SignalContentProblem(EnvelopeElement(security, messaging, ids),
                                 NormAll(REFERENCE, HeaderReferences(ids, messaging))).None?
  {
    BuiltContentVerifies(security, messaging, ids);
    var index := IndexById(EnvelopeElement(security, messaging, ids)).value;
    var read := NormAll(REFERENCE, HeaderReferences(ids, messaging));
    VerifiedPairPasses(read, index, Dump(MESSAGING, Messaging, messaging), Dump(BODY, Body, BodyModel(ids)));
    VerifiedBlockIsCovered(read, index, Dump(MESSAGING, Messaging, messaging));
  }

  lemma SignalPasses(doc: Element, envelope: Model, security: Model, signature: Model, token: Option<Model>,
                     expected: Certificate)
    requires SecurityOf(envelope) == security && OptionalChild(security, Signature) == Some(signature)
    requires SigningToken(security, signature) == token && token.Some? && TokenContentOf(token.value) == Holds(expected)
    requires VerifySignature(signature, SignedInfoIn(doc), expected) == Verified
    requires SignalContentProblem(doc, ReferencesOf(signature)).None?
    ensures SignalProblem(doc, envelope, expected).None?
  {
  }

  /** Everything in a built signal verifies. */
  lemma SignalVerifies(security: Model, messaging: Model, own: Credentials, ids: References, references: seq<Model>,
                       envelope: Model)
    requires security == SignalSecurityModel(ids, own, references) && references == HeaderReferences(ids, messaging)
    requires own.certificate.rsa && own.certificate.key == own.key && ids.signatureTokenId != ""
    requires AttributeOf(messaging, WsuId) == Some(ids.messagingId) && ids.messagingId != "" && ids.bodyId != ""
    requires DistinctIds(IdAttributes(EnvelopeElement(security, messaging, ids)))
    requires envelope == Norm(ENVELOPE, EnvelopeModel(security, messaging, ids))
    ensures SignalProblem(EnvelopeElement(security, messaging, ids), envelope, own.certificate).None?
  {
    var doc := EnvelopeElement(security, messaging, ids);
    var signature := SignatureOf(ids, own.key, references);
    EnvelopeReadsBack(security, messaging, ids);
    SignalSecurityParts(ids, own, references);
    SecurityReadsBack(security, signature, [TokenModel(ids.signatureTokenId, own.certificate)]);
    SigningTokenReadsBack(security, ids, own.key, references, [TokenModel(ids.signatureTokenId, own.certificate)],
                          own.certificate);
    SignatureModelParts(ids, own.key, references);
    SignedInfoIsFound(security, messaging, ids, signature, references);
    BuiltSignatureVerifies(ids, own.key, references, own.certificate);
    SignalContentVerifies(security, messaging, ids);
    var read := Norm(SECURITY, security);
    SignalPasses(doc, envelope, read, Norm(SIGNATURE, signature), SigningToken(read, Norm(SIGNATURE, signature)),
                 own.certificate);
  }

  lemma ReadSignalIs(doc: Element, envelope: Model, expected: Certificate)
    requires Load(ENVELOPE, doc) == Ok(envelope) && |SignalMessagesOf(envelope)| <= 1
    requires SignalProblem(doc, envelope, expected).None?
    ensures var signal := Signal(envelope, OriginalMessageId(envelope));
            ReadSignal(Xml(doc), expected)
            == if ErrorsOf(signal) == [] && signal.originalMessageId.None? then Err(Unproven(NoRefToMessageId))
              else Ok(signal)
  {
  }

  lemma BuiltSignalVerifies(m: Message, own: Credentials, ids: References, now: Text, envelope: Model)
    requires SignalPrepared(own, ids, now)
    requires DistinctIds(IdAttributes(SignalDocument(m, own, ids, now)))
    requires envelope == Norm(ENVELOPE, SignalEnvelope(m, own, ids, now))
    ensures SignalProblem(SignalDocument(m, own, ids, now), envelope, own.certificate).None?
  {
    SignalVerifies(SecurityModelOf(m, own, ids, now), SignalMessagingModel(m, ids, now), own, ids,
                   SignalReferences(m, ids, now), envelope);
  }

  lemma BuiltSignalAnswers(m: Message, own: Credentials, ids: References, now: Text, envelope: Model)
    requires envelope == Norm(ENVELOPE, SignalEnvelope(m, own, ids, now))
    ensures Answers(envelope, m)
  {
    EnvelopeReadsBack(SecurityModelOf(m, own, ids, now), SignalMessagingModel(m, ids, now), ids);
    GenuineSignalAnswers(envelope, m, ids, now);
  }

  lemma AnswerableIsComplete(m: Message, ids: References, now: Text)
    requires !Blank(now) && !Blank(Plain(ids.messageId))
    ensures Answerable(m)
       <==> Complete(SIGNAL_MESSAGE, SignalMessageModel(m, ids, now)) && (m.messageId == Plain("") ==> m.error.Some?)
  {
    SignalMessageIsComplete(m, ids, now);
  }

  /** Every answer is readable by its sender, exactly when the message is answerable: reading it under the
      answering party's certificate yields the error or the references of the message, and its
      identifier. */
  lemma AnswerIsReadable(m: Message, own: Credentials, ids: References, now: Text)
    requires SignalPrepared(own, ids, now)
    requires DistinctIds(IdAttributes(SignalDocument(m, own, ids, now)))
    ensures var read := ReadSignal(Xml(SignalDocument(m, own, ids, now)), own.certificate);
            && (read.Ok? <==> Answerable(m))
            && (read.Ok? ==> Answers(read.value.envelope, m)
                             && read.value == Signal(read.value.envelope, OriginalMessageId(read.value.envelope)))
  {
    var doc := SignalDocument(m, own, ids, now);
    SignalDocumentLoads(m, own, ids, now);
    AnswerableIsComplete(m, ids, now);
    if Load(ENVELOPE, doc).Ok? {
      var envelope := Load(ENVELOPE, doc).value;
      BuiltSignalVerifies(m, own, ids, now, envelope);
      BuiltSignalAnswers(m, own, ids, now, envelope);
      ReadSignalIs(doc, envelope, own.certificate);
    }
  }

  // ---------------------------------------------------------------- which messages are answerable

  lemma LoadedTextIsThere(e: Element)
    requires Load(REQUIRED_TEXT, e).Ok?
    ensures Complete(REQUIRED_TEXT, Load(REQUIRED_TEXT, e).value) && !Blank(e.text)
  {
    LoadedText(REQUIRED_TEXT, e);
    TrimIsIdempotent(e.text);
  }

  lemma {:induction false} TransformsAreComplete(transforms: seq<Model>)
    ensures AllComplete(TRANSFORM, transforms)
  {
    if transforms != [] {
      TransformsAreComplete(transforms[1..]);
    }
  }

  lemma ReferenceFields()
    ensures HasOne(REFERENCE, Transforms, TRANSFORMS) && Requires(REFERENCE, Transforms)
    ensures HasOne(REFERENCE, DigestMethod, REQUIRED_ALGORITHM) && Requires(REFERENCE, DigestMethod)
    ensures HasOne(REFERENCE, DigestValue, REQUIRED_TEXT) && Requires(REFERENCE, DigestValue)
  {
    FieldHere(REFERENCE);
    FieldLater(REFERENCE, DigestMethod);
    FieldHere(REFERENCE.rest);
    FieldLater(REFERENCE, DigestValue);
    FieldLater(REFERENCE.rest, DigestValue);
    FieldHere(REFERENCE.rest.rest);
  }

  /** A loaded single child is the only one. */
  lemma LoadedOnly(s: Schema, e: Element, t: Tag, inner: Schema)
    requires Load(s, e).Ok? && HasOne(s, t, inner) && Requires(s, t)
    ensures Children(Load(s, e).value, t) == [Child(Load(s, e).value, t)]
    ensures OnlyTagged(e, t, FirstTagged(e, t))
    ensures Load(inner, FirstTagged(e, t)) == Ok(Child(Load(s, e).value, t))
  {
    LoadedChild(s, e, t);
    LoadedChildren(s, e, t);
  }

  /** A parsed reference survives being dumped into a receipt when its digest algorithm is not empty. */
  lemma LoadedReferenceIsComplete(e: Element)
    requires Load(REFERENCE, e).Ok? && DigestAlgorithmOf(Load(REFERENCE, e).value) != ""
    ensures Complete(REFERENCE, Load(REFERENCE, e).value)
  {
    var r := Load(REFERENCE, e).value;
    ReferenceFields();
    LoadedOnly(REFERENCE, e, Transforms, TRANSFORMS);
    LoadedOnly(REFERENCE, e, DigestMethod, REQUIRED_ALGORITHM);
    LoadedOnly(REFERENCE, e, DigestValue, REQUIRED_TEXT);
    LoadedTextIsThere(FirstTagged(e, DigestValue));
    TransformsAreComplete(TransformsOf(r));
    CompleteList(TRANSFORMS, Child(r, Transforms));
    CompleteChild(REFERENCE, r, Child(r, Transforms));
    CompleteChild(REFERENCE.rest, r, Child(r, DigestMethod));
    CompleteChild(REFERENCE.rest.rest, r, Child(r, DigestValue));
  }

  lemma LoadedReferencesAreComplete(e: Element)
    requires Load(SIGNED_INFO, e).Ok?
    requires forall r | r in Children(Load(SIGNED_INFO, e).value, Reference) :: DigestAlgorithmOf(r) != ""
    ensures AllComplete(REFERENCE, Children(Load(SIGNED_INFO, e).value, Reference))
  {
    var references := Children(Load(SIGNED_INFO, e).value, Reference);
    SignedInfoFields();
    LoadedChildren(SIGNED_INFO, e, Reference);
    forall i | 0 <= i < |references|
      ensures Complete(REFERENCE, references[i])
    {
      assert references[i] in references;
      LoadedReferenceIsComplete(Tagged(e.children, Reference)[i]);
    }
    AllCompleteIsEach(REFERENCE, references);
  }

  lemma VerifiedDigestIsNamed(r: Model, allowed: string, content: Bytes)
    requires DigestMatches(r, allowed, content) == Matches
    ensures DigestAlgorithmOf(r) != ""
  {
    assert SHA256 != "" && SHA384 != "" && SHA512 != "";
  }

  lemma VerifiedReferencesAreNamed(references: seq<Model>, index: map<string, Element>, attachments: map<string, Bytes>)
    requires ElementsVerify(references, index) && AttachmentsVerify(references, attachments)
    ensures forall r | r in references :: DigestAlgorithmOf(r) != ""
  {
    forall r | r in references
      ensures DigestAlgorithmOf(r) != ""
    {
      if IsCid(UriOf(r)) {
        VerifiedDigestIsNamed(r, ATTACHMENT_CONTENT_SIGNATURE, attachments[WithoutCid(UriOf(r))]);
      } else {
        VerifiedDigestIsNamed(r, EXCLUSIVE_C14N, Xml(Target(r, index).value));
      }
    }
  }

  lemma MessageIdFields()
    ensures HasOne(USER_MESSAGE, MessageInfo, MESSAGE_INFO) && Requires(USER_MESSAGE, MessageInfo)
    ensures HasOne(MESSAGE_INFO, MessageId, REQUIRED_TEXT) && Requires(MESSAGE_INFO, MessageId)
  {
    FieldHere(USER_MESSAGE);
    FieldLater(MESSAGE_INFO, MessageId);
    FieldHere(MESSAGE_INFO.rest);
  }

  lemma LoadedFromOne(s: Schema, e: Element, t: Tag, inner: Schema)
    requires Load(s, e).Ok? && Nests(s, t, inner) && |Children(Load(s, e).value, t)| == 1
    ensures OnlyTagged(e, t, FirstTagged(e, t)) && Load(inner, FirstTagged(e, t)).Ok?
  {
    LoadedChildren(s, e, t);
  }

  lemma OneUserMessage(envelope: Model)
    requires RequiredUserMessage(envelope).Ok?
    ensures |Children(MessagingOf(envelope), UserMessage)| == 1
  {
  }

  lemma LoadedUserMessage(doc: Element)
    requires Load(ENVELOPE, doc).Ok? && RequiredUserMessage(Load(ENVELOPE, doc).value).Ok?
    ensures OnlyTagged(MessagingIn(doc), UserMessage, FirstTagged(MessagingIn(doc), UserMessage))
    ensures Load(USER_MESSAGE, FirstTagged(MessagingIn(doc), UserMessage)).Ok?
  {
    MessagingIsLoaded(doc);
    UserMessageFields();
    OneUserMessage(Load(ENVELOPE, doc).value);
    LoadedFromOne(MESSAGING, MessagingIn(doc), UserMessage, USER_MESSAGE);
  }

  lemma LoadedMessageId(message: Element)
    requires Load(USER_MESSAGE, message).Ok?
    ensures var info := FirstTagged(message, MessageInfo);
            var id := FirstTagged(info, MessageId);
            && OnlyTagged(message, MessageInfo, info)
            && OnlyTagged(info, MessageId, id)
            && !Blank(id.text)
  {
    MessageIdFields();
    LoadedOnly(USER_MESSAGE, message, MessageInfo, MESSAGE_INFO);
    var info := FirstTagged(message, MessageInfo);
    LoadedOnly(MESSAGE_INFO, info, MessageId, REQUIRED_TEXT);
    LoadedTextIsThere(FirstTagged(info, MessageId));
  }

  /** The raw identifier of a message whose header block was loaded is not blank. */
  lemma LoadedIdIsThere(doc: Element)
    requires Load(ENVELOPE, doc).Ok? && RequiredUserMessage(Load(ENVELOPE, doc).value).Ok?
    ensures !Blank(FindText(doc, MESSAGE_ID_PATH))
  {
    MessagingIsLoaded(doc);
    LoadedUserMessage(doc);
    var message := FirstTagged(MessagingIn(doc), UserMessage);
    LoadedMessageId(message);
    var info := FirstTagged(message, MessageInfo);
    TextAlongPath(doc, FirstTagged(doc, Header), MessagingIn(doc), message, info, FirstTagged(info, MessageId),
                  MESSAGE_ID_PATH);
  }

  lemma AcceptedReferencesAreComplete(c: Context, w: Wire)
    requires Parse(c, w).Returned? && Parse(c, w).message.error.None? && c.policy.verifyDigests
    requires SignatureReferences(Parse(c, w).message) != []
    ensures AllComplete(REFERENCE, SignatureReferences(Parse(c, w).message))
  {
    var m := Parse(c, w).message;
    var compressed := AcceptedIsChecked(c, w);
    VerifiedReferencesAreNamed(SignatureReferences(m), IndexById(w.soap.root).value, compressed);
    SignatureIsLoaded(w.soap.root);
    LoadedReferencesAreComplete(SignedInfoIn(w.soap.root));
  }

  /** Every message that is accepted with its digests verified can be answered readably. */
  lemma AcceptedIsAnswerable(c: Context, w: Wire)
    requires Parse(c, w).Returned? && Parse(c, w).message.error.None? && c.policy.verifyDigests
    ensures Answerable(Parse(c, w).message)
  {
    var m := Parse(c, w).message;
    ResultsAreStaged(c, w);
    LoadedIdIsThere(w.soap.root);
    if SignatureReferences(m) != [] {
      AcceptedReferencesAreComplete(c, w);
    }
  }

  /** A message refused by the library itself can be answered readably exactly when its identifier is
      not made of white space only. */
  lemma RefusedIsAnswerable(m: Message)
    requires m.error.Some? && !m.error.value.Custom?
    ensures Answerable(m) <==> m.messageId == Plain("") || !Blank(m.messageId)
  {
    var detail := DetailOf(m.error.value);
    assert detail[0] in {'P', 'r'} && detail[|detail| - 1] in {'D', 'd'};
    TrimKeeps(detail);
  }
}
