/** What is wrong with a message, condition by condition, with each error code written out: validation,
    identification, digests and the signature (as4/core/message.py, as4/errors.py). */
module Judgements {
  import opened Terms
  import opened XmlMapping
  import opened Schemas
  import opened Dsig
  import opened Errors
  import opened Messages
  import opened Peppol
  import opened Receipts

  /** What a condition says about a message: it passes; it is answered with an error of this code; the
      caller's hook has refused it; or an exception escapes. */
  datatype Judgement = Passes | Answered(code: string) | ByHook(refusal: Refusal) | Escapes(fault: LocalFault)
  {
    function Then(next: Judgement): Judgement {
      if Passes? then next else this
    }
  }

  /** The first judgement that does not pass. */
  ghost function FirstOf(js: seq<Judgement>): Judgement {
    if js == [] then Passes else if js[0] != Passes then js[0] else FirstOf(js[1..])
  }

  /** The error signal for this refusal carries this code, as a warning for unsupported features only. */
  predicate Carries(r: Refusal, code: string) {
    && AttributeOf(ErrorModel(r), ErrorCode) == Some(code)
    && AttributeOf(ErrorModel(r), Severity) == Some(if code == "EBMS:0002" then "warning" else "failure")
  }

  predicate Judged(fault: Option<Fault>, j: Judgement) {
    match fault
    case None => j == Passes
    case Some(Refused(r)) => (j.Answered? && Carries(r, j.code)) || j == ByHook(r)
    case Some(Escaped(f)) => j == Escapes(f)
  }

  predicate JudgedRefusal(fault: Option<Refusal>, j: Judgement) {
    Judged(if fault.Some? then Some(Refused(fault.value)) else None, j)
  }

  // ---------------------------------------------------------------- validation

  /** Everything that is wrong with a dictionary, in the order in which a validator reports it. */
  ghost function Problems(s: Schema, d: Model): seq<LoadError>
    decreases s, d, 0
  {
    match s
    case End => []
    case AttributeField(n, required, rest) =>
      (if required && n !in d.attributes then [MissingAttribute(n)] else []) + Problems(rest, d)
    case TextField(required, rest) => (if required && d.text.None? then [MissingText] else []) + Problems(rest, d)
    case ChildField(t, multiplicity, schema, rest) =>
      (if t !in d.children && multiplicity in {One, AtLeastOne} then [MissingChild(t)]
       else if t in d.children && multiplicity in {One, AtMostOne} && |d.children[t]| >= 2 then [RepeatedChild(t)]
       else if t in d.children && multiplicity in {One, AtMostOne} && |d.children[t]| == 0 then [NoElement(t)]
       else ProblemsOfAll(schema, Children(d, t)))
      + Problems(rest, d)
  }

  ghost function ProblemsOfAll(s: Schema, ds: seq<Model>): seq<LoadError>
    decreases s, ds, 0
  {
    if ds == [] then [] else Problems(s, ds[0]) + ProblemsOfAll(s, ds[1..])
  }

  /** Validation fails exactly when something is wrong, and reports the first thing that is. */
  lemma {:induction false} FirstProblemIsReported(s: Schema, d: Model)
    ensures Check(s, d) == if Problems(s, d) == [] then None else Some(Problems(s, d)[0])
    decreases s, d, 0
  {
    match s
    case End =>
    case AttributeField(_, _, rest) => FirstProblemIsReported(rest, d);
    case TextField(_, rest) => FirstProblemIsReported(rest, d);
    case ChildField(t, _, schema, rest) =>
      FirstProblemInList(schema, Children(d, t));
      FirstProblemIsReported(rest, d);
  }

  lemma {:induction false} FirstProblemInList(s: Schema, ds: seq<Model>)
    ensures CheckAll(s, ds) == if ProblemsOfAll(s, ds) == [] then None else Some(ProblemsOfAll(s, ds)[0])
    decreases s, ds, 0
  {
    if ds != [] {
      FirstProblemIsReported(s, ds[0]);
      FirstProblemInList(s, ds[1..]);
    }
  }

  /** A repeated header element is an invalid header, any other failed validation an inconsistent value. */
  ghost function ValidationOf(s: Schema, e: Element): Judgement {
    var problems := Problems(s, ToDict(e));
    if problems == [] then Passes
    else if problems[0].RepeatedChild? then Answered("EBMS:0009")
    else Answered("EBMS:0003")
  }

  lemma ValidationIsJudged(s: Schema, e: Element)
    ensures var r := Load(s, e);
            JudgedRefusal(if r.Err? then Some(FromValidationError(r.error)) else None, ValidationOf(s, e))
  {
    FirstProblemIsReported(s, ToDict(e));
  }

  // ---------------------------------------------------------------- identification

  ghost function IdentityOfDocument(doc: Element): Judgement {
    var messaging := Find(doc, [Header, Messaging]);
    var to := Find(doc, [Header, Messaging, UserMessage, PartyInfo, To]);
    if messaging.None? then Answered("EBMS:0003")
    else if FindText(doc, [Header, Messaging, UserMessage, MessageInfo, MessageId]) == Plain("")
      then Answered("EBMS:0003")
    else if RawAttribute(messaging.value, WsuId) == "" then Answered("EBMS:0003")
    else if to.None? then Answered("EBMS:0003")
    else ValidationOf(PARTY, to.value)
  }

  function FaultOf(s: Step): Option<Fault> {
    if s.Stop? then Some(s.fault) else None
  }

  lemma IdentifyIsJudged(doc: Element, p: Progress)
    ensures Judged(FaultOf(Identify(doc, p)), IdentityOfDocument(doc))
    ensures var r := Identify(doc, p);
            r.Continue? ==>
              && r.progress.fields.messageId == FindText(doc, [Header, Messaging, UserMessage, MessageInfo, MessageId])
              && r.progress.fields.messagingId == RawAttribute(Find(doc, [Header, Messaging]).value, WsuId)
  {
    var to := Find(doc, PARTY_TO_PATH);
    if to.Some? {
      ValidationIsJudged(PARTY, to.value);
    }
  }

  // ---------------------------------------------------------------- digests

  ghost function DigestOf(reference: Model, transform: string, content: Bytes): Judgement {
    var transforms := Children(Child(reference, Transforms), Transform);
    var algorithm := AttributeOf(Child(reference, DigestMethod), Algorithm).GetOr("");
    if transforms == [] || exists t | t in transforms :: AttributeOf(t, Algorithm) != Some(transform) then
      Answered("EBMS:0103")
    else if algorithm != "http://www.w3.org/2001/04/xmlenc#sha256"
            && algorithm != "http://www.w3.org/2001/04/xmldsig-more#sha384"
            && algorithm != "http://www.w3.org/2001/04/xmlenc#sha512" then Answered("EBMS:0103")
    else if Trim(TextOf(Child(reference, DigestValue))) != DigestText(algorithm, content) then Answered("EBMS:0101")
    else Passes
  }

  lemma DigestIsJudged(reference: Model, allowed: string, content: Bytes, uri: string)
    ensures JudgedRefusal(DigestRefusal(DigestMatches(reference, allowed, content), uri),
                          DigestOf(reference, allowed, content))
  {
  }

  // ---------------------------------------------------------------- the references

  ghost function ElementReferenceOf(reference: Model, index: map<string, Element>): Judgement {
    var uri := AttributeOf(reference, Uri).GetOr("");
    var id := if uri != "" && uri[0] == '#' then uri[1..] else uri;
    if "cid:" <= uri then Passes
    else if id !in index then Answered("EBMS:0101")
    else DigestOf(reference, "http://www.w3.org/2001/10/xml-exc-c14n#", Xml(index[id]))
  }

  ghost function ElementReferencesOf(references: seq<Model>, index: map<string, Element>): seq<Judgement> {
    seq(|references|, i requires 0 <= i < |references| => ElementReferenceOf(references[i], index))
  }

  lemma UriIsCid(uri: string)
    ensures IsCid(uri) <==> "cid:" <= uri
    ensures "cid:" <= uri ==> WithoutCid(uri) == uri[4..]
    ensures !("cid:" <= uri) ==> WithoutCid(uri) == uri
    ensures WithoutHash(uri) == if uri != "" && uri[0] == '#' then uri[1..] else uri
  {
    assert "cid:" <= uri ==> uri[..4] == "cid:";
  }

  lemma FirstOfRest(js: seq<Judgement>, first: Judgement, rest: seq<Judgement>)
    requires js == [first] + rest
    ensures FirstOf(js) == if first != Passes then first else FirstOf(rest)
  {
    assert js[1..] == rest;
  }

  lemma {:induction false} ElementReferencesAreJudged(references: seq<Model>, index: map<string, Element>)
    ensures JudgedRefusal(ElementDigestFault(references, index), FirstOf(ElementReferencesOf(references, index)))
  {
    if references != [] {
      var r := references[0];
      ElementReferencesAreJudged(references[1..], index);
      FirstOfRest(ElementReferencesOf(references, index), ElementReferenceOf(r, index),
                  ElementReferencesOf(references[1..], index));
      UriIsCid(UriOf(r));
      if Target(r, index).Some? {
        DigestIsJudged(r, EXCLUSIVE_C14N, Xml(Target(r, index).value), UriOf(r));
      }
    }
  }

  ghost function AttachmentReferenceOf(reference: Model, attachments: map<string, Bytes>): Judgement {
    var uri := AttributeOf(reference, Uri).GetOr("");
    if !("cid:" <= uri) then Passes
    else if uri[4..] !in attachments then Answered("EBMS:0101")
    else
      DigestOf(reference,
               "http://docs.oasis-open.org/wss/oasis-wss-SwAProfile-1.1#Attachment-Content-Signature-Transform",
               attachments[uri[4..]])
  }

  ghost function AttachmentReferencesOf(references: seq<Model>, attachments: map<string, Bytes>): seq<Judgement> {
    seq(|references|, i requires 0 <= i < |references| => AttachmentReferenceOf(references[i], attachments))
  }

  lemma {:induction false} AttachmentReferencesAreJudged(references: seq<Model>, attachments: map<string, Bytes>)
    ensures JudgedRefusal(AttachmentDigestFault(references, attachments),
                          FirstOf(AttachmentReferencesOf(references, attachments)))
  {
    if references != [] {
      var r := references[0];
      AttachmentReferencesAreJudged(references[1..], attachments);
      FirstOfRest(AttachmentReferencesOf(references, attachments), AttachmentReferenceOf(r, attachments),
                  AttachmentReferencesOf(references[1..], attachments));
      UriIsCid(UriOf(r));
      if IsCid(UriOf(r)) && WithoutCid(UriOf(r)) in attachments {
        DigestIsJudged(r, ATTACHMENT_CONTENT_SIGNATURE, attachments[WithoutCid(UriOf(r))], UriOf(r));
      }
    }
  }

  // ---------------------------------------------------------------- the signer

  /** The first security token that the signature's KeyInfo points to by its wsu:Id. */
  ghost predicate PointsTo(security: Model, signature: Model, k: nat) {
    var tokens := Children(security, BinarySecurityToken);
    var uri := AttributeOf(Child(Child(Child(signature, KeyInfo), SecurityTokenReference), TokenReference), Uri);
    && k < |tokens| && uri.Some? && Names(tokens[k], uri.value)
    && forall j | 0 <= j < k :: !Names(tokens[j], uri.value)
  }

  predicate Names(token: Model, uri: string) {
    AttributeOf(token, WsuId).Some? && uri == "#" + AttributeOf(token, WsuId).value
  }

  lemma {:induction false} FirstTokenIsFound(tokens: seq<Model>, uri: string)
    ensures FindToken(tokens, uri).None? <==> forall j | 0 <= j < |tokens| :: !Names(tokens[j], uri)
    ensures forall k | 0 <= k < |tokens| && Names(tokens[k], uri)
            && (forall j | 0 <= j < k :: !Names(tokens[j], uri)) ::
              FindToken(tokens, uri) == Some(tokens[k])
  {
    if tokens != [] {
      FirstTokenIsFound(tokens[1..], uri);
      assert forall j | 0 < j < |tokens| :: tokens[j] == tokens[1..][j - 1];
    }
  }

  lemma SigningTokenIsPointedTo(security: Model, signature: Model)
    ensures SigningToken(security, signature).None? <==> forall k: nat :: !PointsTo(security, signature, k)
    ensures forall k: nat | PointsTo(security, signature, k) ::
              SigningToken(security, signature) == Some(Children(security, BinarySecurityToken)[k])
  {
    var tokens, uri := Children(security, BinarySecurityToken), TokenUri(signature);
    FirstTokenIsFound(tokens, uri);
    if SigningToken(security, signature).Some? && uri != "" {
      var j := FirstNamed(tokens, uri);
      assert PointsTo(security, signature, j);
    }
  }

  ghost function FirstNamed(tokens: seq<Model>, uri: string): (k: nat)
    requires exists j :: 0 <= j < |tokens| && Names(tokens[j], uri)
    ensures k < |tokens| && Names(tokens[k], uri) && forall j | 0 <= j < k :: !Names(tokens[j], uri)
  {
    if Names(tokens[0], uri) then 0
    else
      assert exists j :: 0 <= j < |tokens[1..]| && Names(tokens[1..][j], uri) by {
        var j :| 0 <= j < |tokens| && Names(tokens[j], uri);
        assert tokens[1..][j - 1] == tokens[j];
      }
      1 + FirstNamed(tokens[1..], uri)
  }

  /** Signature.verify, with the algorithms of the library written out. */
  ghost function SignatureJudgement(signature: Model, signedInfo: Element, certificate: Certificate): Judgement {
    var info, value := Child(signature, SignedInfo), Child(signature, SignatureValue);
    var algorithm := AttributeOf(Child(info, SignatureMethod), Algorithm).GetOr("");
    if AttributeOf(Child(info, CanonicalizationMethod), Algorithm)
       != Some("http://www.w3.org/2001/10/xml-exc-c14n#") then
      Answered("EBMS:0103")
    else if algorithm != "http://www.w3.org/2001/04/xmldsig-more#rsa-sha256"
            && algorithm != "http://www.w3.org/2001/04/xmldsig-more#rsa-sha384"
            && algorithm != "http://www.w3.org/2001/04/xmldsig-more#rsa-sha512" then Answered("EBMS:0103")
    else if !certificate.rsa then Answered("EBMS:0103")
    else if value.text.None? then Escapes(UnreadableSignatureValue)
    else if value.text != Some(SignatureText(certificate.key, algorithm, Xml(signedInfo))) then Answered("EBMS:0101")
    else Passes
  }

  lemma SignatureIsJudged(signature: Model, signedInfo: Element, certificate: Certificate)
    ensures Judged(SignatureFault(VerifySignature(signature, signedInfo, certificate)),
                   SignatureJudgement(signature, signedInfo, certificate))
  {
  }

  /** Something that must be covered is not: no element reference resolves to a Messaging or a Body, a
      declared attachment is not referred to, or the name is not one of the three. */
  ghost predicate Uncovered(covered: Coverage, references: seq<Model>, index: map<string, Element>, parts: seq<Model>) {
    match covered
    case MessagingCovered => forall r | r in references :: !ResolvesTo(r, index, Messaging)
    case BodyCovered => forall r | r in references :: !ResolvesTo(r, index, Body)
    case PayloadsCovered =>
      exists p | p in parts :: AttributeOf(p, Href).GetOr("") != ""
           && !Signs(references, AttributeOf(p, Href).GetOr(""))
    case OtherCoverage(_) => true
  }

  predicate ResolvesTo(r: Model, index: map<string, Element>, t: Tag) {
    var uri := AttributeOf(r, Uri).GetOr("");
    var id := if uri != "" && uri[0] == '#' then uri[1..] else uri;
    !("cid:" <= uri) && id in index && index[id].tag == t
  }

  predicate Signs(references: seq<Model>, href: string) {
    "cid:" <= href && exists r | r in references :: AttributeOf(r, Uri).GetOr("") == href
  }

  lemma ResolvesToIs(r: Model, index: map<string, Element>, t: Tag)
    ensures ResolvesTo(r, index, t)
       <==> !IsCid(UriOf(r)) && Target(r, index).Some? && Target(r, index).value.tag == t
  {
    UriIsCid(UriOf(r));
  }

  lemma SignsIs(references: seq<Model>, href: string)
    ensures Signs(references, href) <==> href in SignedPayloads(references)
  {
    UriIsCid(href);
    if r :| r in references && AttributeOf(r, Uri).GetOr("") == href && "cid:" <= href {
      assert UriOf(r) in SignedPayloads(references);
    }
  }

  lemma TagIsCovered(references: seq<Model>, index: map<string, Element>, t: Tag)
    ensures CoversTag(references, index, t) <==> exists r | r in references :: ResolvesTo(r, index, t)
  {
    forall r | r in references
      ensures ResolvesTo(r, index, t) <==> !IsCid(UriOf(r)) && Target(r, index).Some? && Target(r, index).value.tag == t
    {
      ResolvesToIs(r, index, t);
    }
  }

  lemma PayloadsAreCovered(references: seq<Model>, parts: seq<Model>, hrefs: set<string>)
    requires hrefs == set p | p in parts && HrefOf(p) != "" :: HrefOf(p)
    ensures hrefs <= SignedPayloads(references)
       <==> !exists p | p in parts :: AttributeOf(p, Href).GetOr("") != ""
                                      && !Signs(references, AttributeOf(p, Href).GetOr(""))
  {
    forall p | p in parts
      ensures Signs(references, HrefOf(p)) <==> HrefOf(p) in SignedPayloads(references)
    {
      SignsIs(references, HrefOf(p));
    }
    if !(hrefs <= SignedPayloads(references)) {
      var h :| h in hrefs && h !in SignedPayloads(references);
      var p :| p in parts && HrefOf(p) == h;
    }
  }

  lemma CoverageMembers(references: seq<Model>, index: map<string, Element>, hrefs: set<string>)
    ensures MessagingCovered in CoverageOf(references, index, hrefs) <==> CoversTag(references, index, Messaging)
    ensures BodyCovered in CoverageOf(references, index, hrefs) <==> CoversTag(references, index, Body)
    ensures PayloadsCovered in CoverageOf(references, index, hrefs) <==> hrefs <= SignedPayloads(references)
    ensures forall name :: OtherCoverage(name) !in CoverageOf(references, index, hrefs)
  {
  }

  lemma CoverageIsJudged(covered: Coverage, references: seq<Model>, index: map<string, Element>, userMessage: Model)
    ensures covered in CoverageOf(references, index, DeclaredHrefs(userMessage))
       <==> !Uncovered(covered, references, index, PartInfos(userMessage))
  {
    CoverageMembers(references, index, DeclaredHrefs(userMessage));
    match covered
    case MessagingCovered => TagIsCovered(references, index, Messaging);
    case BodyCovered => TagIsCovered(references, index, Body);
    case PayloadsCovered => PayloadsAreCovered(references, PartInfos(userMessage), DeclaredHrefs(userMessage));
    case OtherCoverage(_) =>
  }

  lemma SomethingIsUncovered(required: set<Coverage>, references: seq<Model>, index: map<string, Element>,
                             userMessage: Model)
    ensures required - CoverageOf(references, index, DeclaredHrefs(userMessage)) != {}
       <==> exists covered | covered in required :: Uncovered(covered, references, index, PartInfos(userMessage))
  {
    var all := CoverageOf(references, index, DeclaredHrefs(userMessage));
    forall covered | covered in required
      ensures covered in all <==> !Uncovered(covered, references, index, PartInfos(userMessage))
    {
      CoverageIsJudged(covered, references, index, userMessage);
    }
    if required - all != {} {
      var covered :| covered in required - all;
      assert covered in required && Uncovered(covered, references, index, PartInfos(userMessage));
    }
    if covered :| covered in required && Uncovered(covered, references, index, PartInfos(userMessage)) {
      assert covered in required - all;
    }
  }

  ghost function ContentJudgement(policy: SecurityPolicy, references: seq<Model>, userMessage: Model,
                                  index: map<string, Element>): Judgement
  {
    var parts := Children(Child(userMessage, PayloadInfo), PartInfo);
    if exists covered | covered in policy.requiredCoverage :: Uncovered(covered, references, index, parts) then
      Answered("EBMS:0101")
    else if policy.verifyDigests then FirstOf(ElementReferencesOf(references, index))
    else Passes
  }

  lemma ContentIsJudged(policy: SecurityPolicy, references: seq<Model>, userMessage: Model, index: map<string, Element>)
    ensures JudgedRefusal(ContentFault(policy, references, userMessage, index),
                          ContentJudgement(policy, references, userMessage, index))
  {
    ElementReferencesAreJudged(references, index);
    SomethingIsUncovered(policy.requiredCoverage, references, index, userMessage);
  }

  /** The user message that the header must hold: several are not supported, and none is inconsistent. */
  ghost function UserMessageJudgement(envelope: Model): Judgement {
    var messages := Children(Child(Child(envelope, Header), Messaging), UserMessage);
    if |messages| >= 2 then Answered("EBMS:0002") else if |messages| == 0 then Answered("EBMS:0003") else Passes
  }

  lemma UserMessageIsJudged(envelope: Model)
    ensures var r := RequiredUserMessage(envelope);
            JudgedRefusal(if r.Err? then Some(r.error) else None, UserMessageJudgement(envelope))
    ensures UserMessageJudgement(envelope) == Passes ==>
              RequiredUserMessage(envelope)
              == Ok(Children(Child(Child(envelope, Header), Messaging), UserMessage)[0])
  {
  }

  /** The certificate that the policy's resolver gives for eb:From and the embedded certificate. */
  ghost function ResolutionJudgement(policy: SecurityPolicy, partyFrom: Model, token: Model): Judgement {
    if AttributeOf(token, ValueType)
       != Some("http://docs.oasis-open.org/wss/2004/01/oasis-200401-wss-x509-token-profile-1.0#X509v3") then
      Answered("EBMS:0103")
    else if !TextOf(token).TokenText? then Escapes(UnreadableToken)
    else
      match policy.resolver(partyFrom, Some(TextOf(token).certificate))
      case Trusted(_) => Passes
      case Untrusted => Answered("EBMS:0101")
      case NotConfigured => Escapes(SignerNotConfigured)
  }

  lemma ResolutionIsJudged(policy: SecurityPolicy, partyFrom: Model, token: Model)
    ensures var r := ResolveSigner(policy, partyFrom, token);
            && Judged(if r.Err? then Some(r.error) else None, ResolutionJudgement(policy, partyFrom, token))
            && (r.Ok? ==> policy.resolver(partyFrom, Some(TextOf(token).certificate)) == Trusted(r.value))
  {
  }

  ghost function SignedJudgement(policy: SecurityPolicy, doc: Element, signature: Model, token: Model,
                                 userMessage: Model,
                                 index: map<string, Element>): Judgement
  {
    var partyFrom := Child(Child(userMessage, PartyInfo), From);
    var resolved := ResolutionJudgement(policy, partyFrom, token);
    if resolved != Passes then resolved
    else
      var signer := policy.resolver(partyFrom, Some(TextOf(token).certificate)).certificate;
      SignatureJudgement(signature, SignedInfoIn(doc), signer)
      .Then(ContentJudgement(policy, Children(Child(signature, SignedInfo), Reference), userMessage, index))
  }

  lemma SignedIsJudged(policy: SecurityPolicy, doc: Element, signature: Model, token: Model, userMessage: Model,
                       index: map<string, Element>)
    ensures var r := SignedBy(policy, doc, signature, token, userMessage, index);
            Judged(if r.Err? then Some(r.error) else None,
                   SignedJudgement(policy, doc, signature, token, userMessage, index))
  {
    var partyFrom := Child(Child(userMessage, PartyInfo), From);
    var r := ResolveSigner(policy, partyFrom, token);
    ResolutionIsJudged(policy, partyFrom, token);
    if r.Ok? {
      SignatureIsJudged(signature, SignedInfoIn(doc), r.value);
      ContentIsJudged(policy, ReferencesOf(signature), userMessage, index);
    }
  }

  /** get_verified_signature. */
  ghost function SignerJudgement(policy: SecurityPolicy, doc: Element, envelope: Model,
                                 index: map<string, Element>): Judgement {
    var security := Child(Child(envelope, Header), Security);
    var signature := Child(security, Signature);
    var userMessage := UserMessageJudgement(envelope);
    if Children(security, Signature) == [] then if policy.signRequired then Answered("EBMS:0103") else Passes
    else if forall k: nat :: !PointsTo(security, signature, k) then Answered("EBMS:0101")
    else if userMessage != Passes then userMessage
    else
      var k: nat :| PointsTo(security, signature, k);
      SignedJudgement(policy, doc, signature, Children(security, BinarySecurityToken)[k],
                      Children(Child(Child(envelope, Header), Messaging), UserMessage)[0], index)
  }

  lemma PointedToIsJudged(policy: SecurityPolicy, doc: Element, envelope: Model, index: map<string, Element>, k: nat)
    requires PointsTo(SecurityOf(envelope), Child(SecurityOf(envelope), Signature), k)
    requires OptionalChild(SecurityOf(envelope), Signature).Some? && UserMessageJudgement(envelope) == Passes
    ensures var signature := Child(SecurityOf(envelope), Signature);
            var token := Children(SecurityOf(envelope), BinarySecurityToken)[k];
            var userMessage := Children(MessagingOf(envelope), UserMessage)[0];
            VerifiedSigner(policy, doc, envelope, index) == SignedBy(policy, doc, signature, token, userMessage, index)
  {
    SigningTokenIsPointedTo(SecurityOf(envelope), Child(SecurityOf(envelope), Signature));
    UserMessageIsJudged(envelope);
  }

  lemma EarlyBranches(policy: SecurityPolicy, doc: Element, envelope: Model, index: map<string, Element>)
    ensures var security := SecurityOf(envelope);
            var r := VerifiedSigner(policy, doc, envelope, index);
            if OptionalChild(security, Signature).None? then
              r == if policy.signRequired then Err(Refused(SignatureRequired)) else Ok(None)
            else if SigningToken(security, Child(security, Signature)).None? then
              r == Err(Refused(SecurityTokenReferenceNotFound))
            else RequiredUserMessage(envelope).Err? ==> r == Err(Refused(RequiredUserMessage(envelope).error))
  {
  }

  lemma EarlyCodes()
    ensures Carries(SignatureRequired, "EBMS:0103") && Carries(SecurityTokenReferenceNotFound, "EBMS:0101")
  {
  }

  lemma SignerIsJudged(policy: SecurityPolicy, doc: Element, envelope: Model, index: map<string, Element>)
    ensures var r := VerifiedSigner(policy, doc, envelope, index);
            Judged(if r.Err? then Some(r.error) else None, SignerJudgement(policy, doc, envelope, index))
  {
    var security := SecurityOf(envelope);
    var signature := Child(security, Signature);
    SigningTokenIsPointedTo(security, signature);
    if OptionalChild(security, Signature).Some? && SigningToken(security, signature).Some?
       && UserMessageJudgement(envelope) == Passes {
      var k: nat :| PointsTo(security, signature, k);
      PointedToIsJudged(policy, doc, envelope, index, k);
      SignedIsJudged(policy, doc, signature, Children(security, BinarySecurityToken)[k],
                     Children(MessagingOf(envelope), UserMessage)[0], index);
      OnlyFirstIsPointedTo(security, signature);
    } else {
      EarlyBranches(policy, doc, envelope, index);
      EarlyCodes();
      UserMessageIsJudged(envelope);
    }
  }

  lemma OnlyFirstIsPointedTo(security: Model, signature: Model)
    ensures forall j: nat, k: nat | PointsTo(security, signature, j) && PointsTo(security, signature, k) :: j == k
  {
  }
}
