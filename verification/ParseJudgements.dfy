/** The outcome of every parse, told a second time: decryption, decompression, routing, and the whole, with
    each condition and each error code written out (as4/core/message.py, as4/profiles/peppol/message.py). */
module ParseJudgements {
  import opened Terms
  import opened XmlMapping
  import opened Schemas
  import opened Documents
  import opened Dsig
  import opened Errors
  import opened Messages
  import opened Peppol
  import opened Judgements

  // ---------------------------------------------------------------- decryption

  /** The look-ups by identifier and by name find the first that fits; the one by scope type, the last. */
  lemma {:induction false} FirstDataIsFound(data: seq<Model>, id: string, k: nat)
    requires k < |data| && AttributeOf(data[k], PlainId) == Some(id)
    requires forall j | 0 <= j < k :: AttributeOf(data[j], PlainId) != Some(id)
    ensures FindEncryptedData(data, id) == Some(data[k])
  {
    if k > 0 {
      FirstDataIsFound(data[1..], id, k - 1);
    }
  }

  lemma {:induction false} FirstPropertyIsFound(properties: seq<Model>, name: string, k: nat)
    requires k < |properties| && AttributeOf(properties[k], Name) == Some(name)
    requires forall j | 0 <= j < k :: AttributeOf(properties[j], Name) != Some(name)
    ensures FindProperty(properties, name) == Some(properties[k])
  {
    if k > 0 {
      FirstPropertyIsFound(properties[1..], name, k - 1);
    }
  }

  lemma {:induction false} LastScopeIsFound(scopes: seq<Model>, scopeType: string, k: nat)
    requires k < |scopes| && TextOf(Child(scopes[k], SbdhType)) == Plain(scopeType)
    requires forall j | k < j < |scopes| :: TextOf(Child(scopes[j], SbdhType)) != Plain(scopeType)
    ensures FindScope(scopes, scopeType) == Some(scopes[k])
  {
    if k < |scopes| - 1 {
      LastScopeIsFound(scopes[..|scopes| - 1], scopeType, k);
    }
  }

  lemma {:induction false} NothingIsFound(ms: seq<Model>, name: string)
    ensures FindEncryptedData(ms, name).None? <==> forall m | m in ms :: AttributeOf(m, PlainId) != Some(name)
    ensures FindProperty(ms, name).None? <==> forall m | m in ms :: AttributeOf(m, Name) != Some(name)
  {
    if ms != [] {
      assert ms == [ms[0]] + ms[1..];
      NothingIsFound(ms[1..], name);
    }
  }

  lemma {:induction false} NoScopeIsFound(scopes: seq<Model>, scopeType: string)
    ensures FindScope(scopes, scopeType).None?
       <==> forall s | s in scopes :: TextOf(Child(s, SbdhType)) != Plain(scopeType)
  {
    if scopes != [] {
      assert scopes == scopes[..|scopes| - 1] + [scopes[|scopes| - 1]];
      NoScopeIsFound(scopes[..|scopes| - 1], scopeType);
    }
  }

  /** The session key is wrapped for the local key by RSA-OAEP. */
  ghost function KeyJudgement(security: Model, key: Key): Judgement {
    var encryptedKey := Child(security, EncryptedKey);
    var value := Child(Child(encryptedKey, CipherData), CipherValue).text;
    if value.None? then Answered("EBMS:0102")
    else if AttributeOf(Child(encryptedKey, EncryptionMethod), Algorithm)
            != Some("http://www.w3.org/2009/xmlenc11#rsa-oaep") then Answered("EBMS:0103")
    else if !value.value.WrappedKeyText? || value.value.recipient != key then Answered("EBMS:0102")
    else Passes
  }

  lemma KeyIsJudged(security: Model, key: Key)
    ensures var r := SessionKeyOf(security, key);
            && JudgedRefusal(if r.Err? then Some(r.error) else None, KeyJudgement(security, key))
            && (r.Ok? ==> Child(Child(Child(security, EncryptedKey), CipherData), CipherValue).text
                          == Some(WrappedKeyText(key, r.value)))
  {
  }

  /** A data reference leads to an attachment that AES-128-GCM opens under the session key. */
  ghost function DataJudgement(reference: Model, security: Model, attachments: map<string, Bytes>,
                               session: SessionKey): Judgement {
    var uri := AttributeOf(reference, Uri).GetOr("");
    if uri == "" then Answered("EBMS:0102")
    else
      var data := FindEncryptedData(Children(security, EncryptedData), uri[1..]);
      if data.None? then Answered("EBMS:0102")
      else
        var cipher := AttributeOf(Child(Child(data.value, CipherData), CipherReference), Uri).GetOr("");
        if !("cid:" <= cipher) || cipher[4..] !in attachments then Answered("EBMS:0102")
        else if AttributeOf(Child(data.value, EncryptionMethod), Algorithm)
                != Some("http://www.w3.org/2009/xmlenc11#aes128-gcm") then Answered("EBMS:0103")
        else if !attachments[cipher[4..]].Sealed? || attachments[cipher[4..]].key != session then Answered("EBMS:0102")
        else Passes
  }

  predicate FailsDecryption(r: Refusal) {
    || r.EncryptedDataReferenceNotFound? || r.EncryptedDataNotFound? || r.CipherReferenceNotFound?
    || r.EncryptedAttachmentNotFound? || r.DecryptionFailed?
  }

  lemma DataOutcome(reference: Model, security: Model, attachments: map<string, Bytes>, session: SessionKey)
    ensures var r := DecryptReference(reference, security, attachments, session);
            match DataJudgement(reference, security, attachments, session)
            case Passes => r.Ok?
            case Answered(code) =>
              r.Err? && if code == "EBMS:0103" then r.error.UnsupportedEncryptionAlgorithm?
                        else code == "EBMS:0102" && FailsDecryption(r.error)
            case ByHook(_) => false
            case Escapes(_) => false
  {
    var uri := UriOf(reference);
    if uri != "" {
      var data := FindEncryptedData(Children(security, EncryptedData), uri[1..]);
      if data.Some? {
        UriIsCid(AttributeOf(Child(Child(data.value, CipherData), CipherReference), Uri).GetOr(""));
      }
    }
  }

  lemma DecryptionCodes(r: Refusal)
    ensures FailsDecryption(r) ==> Carries(r, "EBMS:0102")
    ensures r.UnsupportedEncryptionAlgorithm? ==> Carries(r, "EBMS:0103")
  {
  }

  lemma DataIsJudged(reference: Model, security: Model, attachments: map<string, Bytes>, session: SessionKey)
    ensures var r := DecryptReference(reference, security, attachments, session);
            JudgedRefusal(if r.Err? then Some(r.error) else None,
                          DataJudgement(reference, security, attachments, session))
  {
    DataOutcome(reference, security, attachments, session);
    var r := DecryptReference(reference, security, attachments, session);
    if r.Err? {
      DecryptionCodes(r.error);
    }
  }

  ghost function DataJudgements(references: seq<Model>, security: Model, attachments: map<string, Bytes>,
                                session: SessionKey)
    : seq<Judgement>
  {
    seq(|references|, i requires 0 <= i < |references| => DataJudgement(references[i], security, attachments, session))
  }

  lemma {:induction false} DataAreJudged(references: seq<Model>, security: Model, attachments: map<string, Bytes>,
                                         session: SessionKey, decrypted: map<string, Bytes>)
    ensures var r := DecryptReferences(references, security, attachments, session, decrypted);
            JudgedRefusal(if r.Err? then Some(r.error) else None,
                          FirstOf(DataJudgements(references, security, attachments, session)))
    decreases |references|
  {
    if references != [] {
      var found := DecryptReference(references[0], security, attachments, session);
      DataIsJudged(references[0], security, attachments, session);
      FirstOfRest(DataJudgements(references, security, attachments, session),
                  DataJudgement(references[0], security, attachments, session),
                  DataJudgements(references[1..], security, attachments, session));
      if found.Ok? {
        DataAreJudged(references[1..], security, attachments, session,
                      decrypted[found.value.id := found.value.content]);
      }
    }
  }

  ghost function DecryptionJudgement(policy: SecurityPolicy, key: Key, security: Model,
                                     attachments: map<string, Bytes>): Judgement {
    if Children(security, EncryptedKey) == [] then if policy.encryptRequired then Answered("EBMS:0103") else Passes
    else if KeyJudgement(security, key) != Passes then KeyJudgement(security, key)
    else
      var session := Child(Child(Child(security, EncryptedKey), CipherData), CipherValue).text.value.session;
      FirstOf(DataJudgements(Children(Child(Child(security, EncryptedKey), ReferenceList), DataReference), security,
                             attachments, session))
  }

  lemma DecryptionIsJudged(policy: SecurityPolicy, key: Key, security: Model, attachments: map<string, Bytes>)
    ensures var r := DecryptedData(policy, key, security, attachments);
            JudgedRefusal(if r.Err? then Some(r.error) else None,
                          DecryptionJudgement(policy, key, security, attachments))
  {
    KeyIsJudged(security, key);
    if SessionKeyOf(security, key).Ok? {
      DataAreJudged(DataReferences(security), security, attachments, SessionKeyOf(security, key).value, map[]);
    }
  }

  // ---------------------------------------------------------------- decompression

  /** The first property named CompressionType says gzip. */
  predicate Compressed(part: Model) {
    var property := FindProperty(Children(Child(part, PartProperties), Property), "CompressionType");
    property.Some? && TextOf(property.value) == Plain("application/gzip")
  }

  /** Each declared attachment is there, and each compressed one that was decrypted is a gzip stream of an
      allowed size when its turn comes. */
  ghost function PartsJudgement(parts: seq<Model>, attachments: map<string, Bytes>, data: map<string, Bytes>,
                                maximumSize: nat, sizeOf: Bytes -> nat): Judgement
    decreases |parts|
  {
    if parts == [] then Passes
    else
      var href := AttributeOf(parts[0], Href).GetOr("");
      var id := if "cid:" <= href then href[4..] else href;
      if href == "" then PartsJudgement(parts[1..], attachments, data, maximumSize, sizeOf)
      else if id !in attachments then Answered("EBMS:0007")
      else if id !in data || !Compressed(parts[0])
        then PartsJudgement(parts[1..], attachments, data, maximumSize, sizeOf)
      else if !data[id].Gzip? || sizeOf(data[id].content) > maximumSize then Answered("EBMS:0303")
      else PartsJudgement(parts[1..], attachments, data[id := data[id].content], maximumSize, sizeOf)
  }

  lemma UnpackingCodes(href: string)
    ensures Carries(PartInfoWithoutMimePart(href), "EBMS:0007")
    ensures Carries(DecompressionFailed, "EBMS:0303") && Carries(DecompressedPayloadTooLarge, "EBMS:0303")
  {
  }

  lemma DecompressIs(part: Model, content: Bytes, maximumSize: nat, sizeOf: Bytes -> nat)
    ensures Decompress(part, content, maximumSize, sizeOf)
         == if !Compressed(part) then Ok(content)
            else if !content.Gzip? then Err(DecompressionFailed)
            else if sizeOf(content.content) > maximumSize then Err(DecompressedPayloadTooLarge)
            else Ok(content.content)
  {
  }

  lemma {:induction false} PartsAreJudged(parts: seq<Model>, attachments: map<string, Bytes>, data: map<string, Bytes>,
                                          maximumSize: nat, sizeOf: Bytes -> nat)
    ensures JudgedRefusal(DecompressParts(parts, attachments, data, maximumSize, sizeOf).fault,
                          PartsJudgement(parts, attachments, data, maximumSize, sizeOf))
    decreases |parts|
  {
    if parts != [] {
      var id := WithoutCid(HrefOf(parts[0]));
      UriIsCid(HrefOf(parts[0]));
      UnpackingCodes(HrefOf(parts[0]));
      PartsAreJudged(parts[1..], attachments, data, maximumSize, sizeOf);
      if id in data {
        DecompressIs(parts[0], data[id], maximumSize, sizeOf);
        assert data[id := data[id]] == data;
        if data[id].Gzip? {
          PartsAreJudged(parts[1..], attachments, data[id := data[id].content], maximumSize, sizeOf);
        }
      }
    }
  }

  // ---------------------------------------------------------------- routing

  /** Both parties are identified in the Peppol scheme. */
  predicate PeppolParties(userMessage: Model) {
    var from := Child(Child(Child(userMessage, PartyInfo), From), PartyId);
    var to := Child(Child(Child(userMessage, PartyInfo), To), PartyId);
    && AttributeOf(from, TypeName) == Some("urn:fdc:peppol.eu:2017:identifiers:ap")
    && AttributeOf(to, TypeName) == Some("urn:fdc:peppol.eu:2017:identifiers:ap")
  }

  /** The first attachment is a well-formed business document whose header the schema and the class accept. */
  ghost predicate HasRoutingHeader(c: Context, first: Option<string>, decrypted: map<string, Bytes>) {
    && first.Some? && first.value in decrypted && decrypted[first.value].Xml?
    && var root := decrypted[first.value].root;
       && Tagged(root.children, StandardBusinessDocumentHeader) != []
       && c.schemaValid(Tagged(root.children, StandardBusinessDocumentHeader)[0])
       && Problems(BUSINESS_DOCUMENT, ToDict(root)) == []
  }

  /** The routing header, as it is loaded. */
  ghost function RoutingHeader(c: Context, first: Option<string>, decrypted: map<string, Bytes>): Model
    requires HasRoutingHeader(c, first, decrypted)
  {
    Child(Project(BUSINESS_DOCUMENT, ToDict(decrypted[first.value].root)), StandardBusinessDocumentHeader)
  }

  /** The header block names a participant of the routing header, in value and scheme. */
  predicate DeclaredAs(userMessage: Model, name: string, header: Model, direction: Tag) {
    var property := FindProperty(Children(Child(userMessage, MessageProperties), Property), name);
    var participant := Child(Child(header, direction), Identifier);
    && property.Some?
    && TextOf(property.value) == TextOf(participant)
    && AttributeOf(property.value, TypeName) == AttributeOf(participant, Authority)
  }

  predicate HasScope(header: Model, scopeType: string) {
    exists s | s in Children(Child(header, BusinessScope), Scope) :: TextOf(Child(s, SbdhType)) == Plain(scopeType)
  }

  /** The acceptor's answer about the recipient. */
  ghost function AcceptorJudgement(c: Context, recipient: Text): Judgement {
    if c.acceptor.None? then Passes
    else
      match c.acceptor.value(recipient)
      case Accepted => Passes
      case NotServiced => Answered("EBMS:0004")
      case RefusedWith(r) => ByHook(r)
      case Failed => Escapes(AcceptorFailed)
  }

  ghost function RouteJudgement(c: Context, userMessage: Model, header: Model): Judgement {
    if c.policy.verifyParticipants
       && !(DeclaredAs(userMessage, "originalSender", header, Sender)
            && DeclaredAs(userMessage, "finalRecipient", header, Receiver)) then Answered("EBMS:0004")
    else
      AcceptorJudgement(c, TextOf(Child(Child(header, Receiver), Identifier)))
      .Then(if HasScope(header, "DOCUMENTID") && HasScope(header, "PROCESSID") && HasScope(header, "COUNTRY_C1")
            then Passes
            else Answered("EBMS:0004"))
  }

  lemma RoutingCode(r: Refusal)
    requires r.PeppolSbdh? || r.PeppolPartyIdentifier? || r.PeppolNotServiced?
    ensures Carries(r, "EBMS:0004")
  {
  }

  lemma AskIsJudged(c: Context, recipient: Text, p: Progress)
    ensures Judged(FaultOf(Ask(c, recipient, p)), AcceptorJudgement(c, recipient))
    ensures Ask(c, recipient, p).progress.fields == p.fields
    ensures Ask(c, recipient, p).progress.asked == p.asked + (if c.acceptor.Some? then [recipient] else [])
    ensures c.acceptor.Some? && c.acceptor.value(recipient).NotServiced? ==>
              FaultOf(Ask(c, recipient, p)) == Some(Refused(PeppolNotServiced))
  {
    RoutingCode(PeppolNotServiced);
  }

  lemma ScopesAreJudged(header: Model, p: Progress)
    ensures Judged(FaultOf(ReadScopes(header, p)),
                   if HasScope(header, "DOCUMENTID") && HasScope(header, "PROCESSID") && HasScope(header, "COUNTRY_C1")
                   then Passes else Answered("EBMS:0004"))
  {
    RoutingCode(PeppolSbdh);
    NoScopeIsFound(ScopesOf(header), DOCUMENTID);
    NoScopeIsFound(ScopesOf(header), PROCESSID);
    NoScopeIsFound(ScopesOf(header), COUNTRY_C1);
  }

  lemma RouteIsJudged(c: Context, userMessage: Model, header: Model, p: Progress)
    ensures Judged(FaultOf(Route(c, userMessage, header, p)), RouteJudgement(c, userMessage, header))
  {
    var recipient := TextOf(ParticipantOf(header, Receiver));
    var routed := p.(fields := p.fields.(sender := Some(TextOf(ParticipantOf(header, Sender))),
                                         recipient := Some(recipient)));
    RoutingCode(PeppolSbdh);
    AskIsJudged(c, recipient, routed);
    ScopesAreJudged(header, Ask(c, recipient, routed).progress);
  }

  ghost function RoutingJudgement(c: Context, envelope: Model, first: Option<string>, decrypted: map<string, Bytes>)
    : Judgement
  {
    var messages := Children(Child(Child(envelope, Header), Messaging), UserMessage);
    if UserMessageJudgement(envelope) != Passes then UserMessageJudgement(envelope)
    else if !PeppolParties(messages[0]) || !HasRoutingHeader(c, first, decrypted) then Answered("EBMS:0004")
    else RouteJudgement(c, messages[0], RoutingHeader(c, first, decrypted))
  }

  lemma HeaderIsJudged(c: Context, m: Message)
    ensures FirstPayload(m).Some? && BusinessHeader(c, FirstPayload(m).value).Some?
       <==> HasRoutingHeader(c, m.attachments.first, m.decrypted)
    ensures HasRoutingHeader(c, m.attachments.first, m.decrypted) ==>
              BusinessHeader(c, FirstPayload(m).value) == Some(RoutingHeader(c, m.attachments.first, m.decrypted))
  {
    if FirstPayload(m).Some? && FirstPayload(m).value.Xml? {
      FirstProblemIsReported(BUSINESS_DOCUMENT, ToDict(FirstPayload(m).value.root));
    }
  }

  lemma PartiesAreJudged(userMessage: Model)
    ensures PartiesArePeppol(userMessage) <==> PeppolParties(userMessage)
  {
  }

  lemma RoutingBranches(c: Context, p: Progress)
    requires p.fields.envelope.Some?
    ensures var userMessage, payload := RequiredUserMessage(p.fields.envelope.value), FirstPayload(p.fields);
            ProcessSbdh(c, p)
            == if userMessage.Err? then Refuse(p, userMessage.error)
               else if !PartiesArePeppol(userMessage.value) then Refuse(p, PeppolPartyIdentifier)
               else if payload.None? || BusinessHeader(c, payload.value).None? then Refuse(p, PeppolSbdh)
               else Route(c, userMessage.value, BusinessHeader(c, payload.value).value, p)
  {
  }

  lemma RoutingIsJudged(c: Context, p: Progress)
    requires p.fields.envelope.Some?
    ensures Judged(FaultOf(ProcessSbdh(c, p)),
                   RoutingJudgement(c, p.fields.envelope.value, p.fields.attachments.first, p.fields.decrypted))
  {
    var envelope, first, decrypted := p.fields.envelope.value, p.fields.attachments.first, p.fields.decrypted;
    UserMessageIsJudged(envelope);
    HeaderIsJudged(c, p.fields);
    RoutingBranches(c, p);
    if UserMessageJudgement(envelope) == Passes {
      PartiesAreJudged(RequiredUserMessage(envelope).value);
      RoutingCode(PeppolSbdh);
      RoutingCode(PeppolPartyIdentifier);
      if HasRoutingHeader(c, first, decrypted) {
        RouteIsJudged(c, RequiredUserMessage(envelope).value, RoutingHeader(c, first, decrypted), p);
      }
    }
  }

  // ---------------------------------------------------------------- the whole parse

  ghost function AuthenticationJudgement(c: Context, doc: Element): Judgement {
    if ValidationOf(ENVELOPE, doc) != Passes then ValidationOf(ENVELOPE, doc)
    else if !DistinctIds(IdAttributes(doc)) then Answered("EBMS:0101")
    else
      ValidationIsJudged(ENVELOPE, doc);
      IndexIsExact(doc);
      SignerJudgement(c.policy, doc, Load(ENVELOPE, doc).value, IndexById(doc).value)
  }

  lemma AuthenticationIsJudged(c: Context, doc: Element, attachments: Attachments, p: Progress)
    ensures Judged(FaultOf(Authenticate(c, doc, attachments, p)), AuthenticationJudgement(c, doc))
  {
    ValidationIsJudged(ENVELOPE, doc);
    IndexIsExact(doc);
    if Load(ENVELOPE, doc).Ok? && IndexById(doc).Ok? {
      SignerIsJudged(c.policy, doc, Load(ENVELOPE, doc).value, IndexById(doc).value);
    } else if Load(ENVELOPE, doc).Ok? {
      DuplicateIdCode(IndexById(doc).error);
    }
  }

  lemma DuplicateIdCode(id: string)
    ensures Carries(DuplicateElementId(id), "EBMS:0101")
  {
  }

  ghost function DecryptJudgement(c: Context, envelope: Model, attachments: map<string, Bytes>): Judgement {
    var security := Child(Child(envelope, Header), Security);
    var decryption := DecryptionJudgement(c.policy, c.key, security, attachments);
    if decryption != Passes then decryption
    else
      DecryptionIsJudged(c.policy, c.key, security, attachments);
      var data := DecryptedData(c.policy, c.key, security, attachments).value;
      if Children(security, Signature) != [] && c.policy.verifyDigests then
        FirstOf(AttachmentReferencesOf(Children(Child(Child(security, Signature), SignedInfo), Reference), data))
      else Passes
  }

  lemma DecryptIsJudged(c: Context, p: Progress)
    requires p.fields.envelope.Some?
    ensures var envelope, attachments := p.fields.envelope.value, p.fields.attachments.parts;
            var r := Decrypt(c, p);
            && Judged(FaultOf(r), DecryptJudgement(c, envelope, attachments))
            && (r.Continue? ==>
                  && DecryptedData(c.policy, c.key, SecurityOf(envelope), attachments).Ok?
                  && r.progress == p.(fields := p.fields.(
                       decrypted := DecryptedData(c.policy, c.key, SecurityOf(envelope), attachments).value)))
  {
    var envelope, attachments := p.fields.envelope.value, p.fields.attachments.parts;
    DecryptionIsJudged(c.policy, c.key, SecurityOf(envelope), attachments);
    var data := DecryptedData(c.policy, c.key, SecurityOf(envelope), attachments);
    if data.Ok? {
      AttachmentReferencesAreJudged(SignatureReferences(p.fields), data.value);
    }
  }

  ghost function UnpackJudgement(c: Context, envelope: Model, attachments: map<string, Bytes>, data: map<string, Bytes>)
    : Judgement
  {
    if UserMessageJudgement(envelope) != Passes then UserMessageJudgement(envelope)
    else
      var userMessage := Children(Child(Child(envelope, Header), Messaging), UserMessage)[0];
      if Children(userMessage, PayloadInfo) == [] then Answered("EBMS:0003")
      else
        PartsJudgement(Children(Child(userMessage, PayloadInfo), PartInfo), attachments, data, c.policy.maximumSize,
                       c.sizeOf)
  }

  lemma PayloadInfoCode()
    ensures Carries(PayloadInfoNotFound, "EBMS:0003")
  {
  }

  lemma UnpackIsJudged(c: Context, p: Progress)
    requires p.fields.envelope.Some?
    ensures Judged(FaultOf(Unpack(c, p)),
                   UnpackJudgement(c, p.fields.envelope.value, p.fields.attachments.parts, p.fields.decrypted))
    ensures Unpack(c, p).Continue? ==>
              Unpack(c, p).progress == p.(fields := p.fields.(decrypted := UnpackedData(c, p.fields.envelope.value,
                                                                                        p.fields)))
  {
    UserMessageIsJudged(p.fields.envelope.value);
    PayloadInfoCode();
    if RequiredUserMessage(p.fields.envelope.value).Ok? {
      PartsAreJudged(PartInfos(RequiredUserMessage(p.fields.envelope.value).value), p.fields.attachments.parts,
                     p.fields.decrypted, c.policy.maximumSize, c.sizeOf);
    }
  }

  function OpenedData(c: Context, envelope: Model, attachments: map<string, Bytes>): map<string, Bytes> {
    var data := DecryptedData(c.policy, c.key, SecurityOf(envelope), attachments);
    if data.Ok? then data.value else map[]
  }

  /** What the parts are decompressed to. */
  function UnpackedData(c: Context, envelope: Model, m: Message): map<string, Bytes> {
    var message := RequiredUserMessage(envelope);
    if message.Err? then map[]
    else DecompressParts(PartInfos(message.value), m.attachments.parts, m.decrypted, c.policy.maximumSize,
                         c.sizeOf).data
  }

  /** What is judged once the signer is known. */
  ghost function ContentOf(c: Context, envelope: Model, attachments: Attachments): Judgement {
    if DecryptJudgement(c, envelope, attachments.parts) != Passes then DecryptJudgement(c, envelope, attachments.parts)
    else
      var decrypted := OpenedData(c, envelope, attachments.parts);
      UnpackJudgement(c, envelope, attachments.parts, decrypted)
      .Then(RoutingJudgement(c, envelope, attachments.first,
                             UnpackedData(c, envelope, NO_FIELDS.(attachments := attachments, decrypted := decrypted))))
  }

  lemma ContentSteps(c: Context, p: Progress)
    requires p.fields.envelope.Some?
    ensures var envelope := p.fields.envelope.value;
            var r := Decrypt(c, p);
            var u := if r.Stop? then r else Unpack(c, r.progress);
            var s := if u.Stop? then u else ProcessSbdh(c, u.progress);
            Judged(FaultOf(s), ContentOf(c, envelope, p.fields.attachments))
  {
    DecryptIsJudged(c, p);
    var r := Decrypt(c, p);
    if r.Continue? {
      UnpackIsJudged(c, r.progress);
      var u := Unpack(c, r.progress);
      if u.Continue? {
        RoutingIsJudged(c, u.progress);
      }
    }
  }

  ghost function ParseJudgement(c: Context, w: Wire): Judgement {
    if !w.soap.Xml? then Answered("EBMS:0009")
    else
      var doc := w.soap.root;
      if IdentityOfDocument(doc) != Passes then IdentityOfDocument(doc)
      else if AuthenticationJudgement(c, doc) != Passes then AuthenticationJudgement(c, doc)
      else
        ValidationIsJudged(ENVELOPE, doc);
        ContentOf(c, Load(ENVELOPE, doc).value, w.attachments)
  }

  lemma MalformedCode()
    ensures Carries(MalformedSoapEnvelope, "EBMS:0009")
  {
  }

  lemma AuthenticatedFields(c: Context, doc: Element, attachments: Attachments, p: Progress)
    requires Authenticate(c, doc, attachments, p).Continue?
    ensures var m := Authenticate(c, doc, attachments, p).progress.fields;
            m.envelope.Some? && Load(ENVELOPE, doc) == Ok(m.envelope.value) && m.attachments == attachments
  {
  }

  lemma PipelineIsJudged(c: Context, w: Wire)
    ensures Judged(FaultOf(Pipeline(c, w)), ParseJudgement(c, w))
  {
    if w.soap.Xml? {
      var doc, start := w.soap.root, Progress(NO_FIELDS, []);
      IdentifyIsJudged(doc, start);
      var identified := Identify(doc, start);
      if identified.Continue? {
        AuthenticationIsJudged(c, doc, w.attachments, identified.progress);
        var authenticated := Authenticate(c, doc, w.attachments, identified.progress);
        if authenticated.Continue? {
          AuthenticatedFields(c, doc, w.attachments, identified.progress);
          ContentSteps(c, authenticated.progress);
        }
      }
    } else {
      MalformedCode();
    }
  }

  /** The outcome of every parse is the judgement: nothing is wrong exactly when the message is accepted; an
      error is the one whose code is judged, or the refusal of the caller's hook; and exactly the judged
      exceptions escape. */
  lemma ParseIsJudged(c: Context, w: Wire)
    ensures match Parse(c, w)
            case Raised(f, _) => ParseJudgement(c, w) == Escapes(f)
            case Returned(m, _) =>
              match m.error
              case None => ParseJudgement(c, w) == Passes
              case Some(r) =>
                ParseJudgement(c, w) == ByHook(r)
                || (ParseJudgement(c, w).Answered? && Carries(r, ParseJudgement(c, w).code))
  {
    PipelineIsJudged(c, w);
    PipelineHasNoError(c, w);
  }

  lemma PipelineHasNoError(c: Context, w: Wire)
    ensures Pipeline(c, w).progress.fields.error.None?
  {
    if w.soap.Xml? {
      var start := Progress(NO_FIELDS, []);
      var r1 := Identify(w.soap.root, start);
      if r1.Continue? {
        CoreLeavesError(c, w, r1.progress);
        var r2 := CoreProcess(c, w.soap.root, w.attachments, r1.progress);
        if r2.Continue? {
          RoutingLeavesError(c, r2.progress);
        }
      }
    }
  }

  lemma AuthenticateLeavesError(c: Context, doc: Element, attachments: Attachments, p: Progress)
    ensures Authenticate(c, doc, attachments, p).progress.fields.error == p.fields.error
  {
  }

  lemma DecryptLeavesError(c: Context, p: Progress)
    requires p.fields.envelope.Some?
    ensures Decrypt(c, p).progress.fields.error == p.fields.error
  {
  }

  lemma UnpackLeavesError(c: Context, p: Progress)
    requires p.fields.envelope.Some?
    ensures Unpack(c, p).progress.fields.error == p.fields.error
  {
  }

  lemma CoreLeavesError(c: Context, w: Wire, p: Progress)
    requires w.soap.Xml?
    ensures CoreProcess(c, w.soap.root, w.attachments, p).progress.fields.error == p.fields.error
  {
    AuthenticateLeavesError(c, w.soap.root, w.attachments, p);
    var r1 := Authenticate(c, w.soap.root, w.attachments, p);
    if r1.Continue? {
      DecryptLeavesError(c, r1.progress);
      var r2 := Decrypt(c, r1.progress);
      if r2.Continue? {
        UnpackLeavesError(c, r2.progress);
      }
    }
  }

  lemma RouteLeavesError(c: Context, userMessage: Model, header: Model, p: Progress)
    ensures Route(c, userMessage, header, p).progress.fields.error == p.fields.error
  {
    var recipient := TextOf(ParticipantOf(header, Receiver));
    var routed := p.(fields := p.fields.(sender := Some(TextOf(ParticipantOf(header, Sender))),
                                         recipient := Some(recipient)));
    AskIsJudged(c, recipient, routed);
    ScopesLeaveError(header, Ask(c, recipient, routed).progress);
  }

  lemma ScopesLeaveError(header: Model, p: Progress)
    ensures ReadScopes(header, p).progress.fields.error == p.fields.error
  {
  }

  lemma RoutingLeavesError(c: Context, p: Progress)
    requires p.fields.envelope.Some?
    ensures ProcessSbdh(c, p).progress.fields.error == p.fields.error
  {
    var userMessage := RequiredUserMessage(p.fields.envelope.value);
    var payload := FirstPayload(p.fields);
    if userMessage.Ok? && payload.Some? && BusinessHeader(c, payload.value).Some? {
      RouteLeavesError(c, userMessage.value, BusinessHeader(c, payload.value).value, p);
    }
  }

  // ---------------------------------------------------------------- the acceptor decides

  /** What a step that started without a question says about the acceptor. When it was not asked although
      there is one, the step has stopped before; when it was asked, it was asked about the recipient, and
      the step has ended as it answered. */
  ghost predicate Decided(c: Context, s: Step) {
    if s.progress.asked == [] then
      c.acceptor.Some? ==> s.Stop? && s.fault != Escaped(AcceptorFailed)
    else
      && c.acceptor.Some? && |s.progress.asked| == 1 && s.progress.fields.recipient == Some(s.progress.asked[0])
      && match c.acceptor.value(s.progress.asked[0])
         case Accepted => s.Stop? ==> s.fault == Refused(PeppolSbdh)
         case NotServiced => s.Stop? && s.fault == Refused(PeppolNotServiced)
         case RefusedWith(r) => s.Stop? && s.fault == Refused(r)
         case Failed => s.Stop? && s.fault == Escaped(AcceptorFailed)
  }

  lemma ScopesOutcome(header: Model, p: Progress)
    ensures var s := ReadScopes(header, p);
            && s.progress.asked == p.asked && s.progress.fields.recipient == p.fields.recipient
            && (s.Stop? ==> s.fault == Refused(PeppolSbdh))
  {
  }

  lemma RouteIsDecided(c: Context, userMessage: Model, header: Model, p: Progress)
    requires p.asked == []
    ensures Decided(c, Route(c, userMessage, header, p))
  {
    var recipient := TextOf(ParticipantOf(header, Receiver));
    var routed := p.(fields := p.fields.(sender := Some(TextOf(ParticipantOf(header, Sender))),
                                         recipient := Some(recipient)));
    AskIsJudged(c, recipient, routed);
    ScopesOutcome(header, Ask(c, recipient, routed).progress);
  }

  lemma RoutingIsDecided(c: Context, p: Progress)
    requires p.fields.envelope.Some? && p.asked == []
    ensures Decided(c, ProcessSbdh(c, p))
  {
    var userMessage := RequiredUserMessage(p.fields.envelope.value);
    var payload := FirstPayload(p.fields);
    if userMessage.Ok? && PartiesArePeppol(userMessage.value) && payload.Some?
       && BusinessHeader(c, payload.value).Some? {
      RouteIsDecided(c, userMessage.value, BusinessHeader(c, payload.value).value, p);
    }
  }

  lemma IdentifyAsksNobody(doc: Element, p: Progress)
    ensures Identify(doc, p).progress.asked == p.asked
    ensures FaultOf(Identify(doc, p)) != Some(Escaped(AcceptorFailed))
  {
  }

  lemma ResolutionAsksNobody(policy: SecurityPolicy, partyFrom: Model, token: Model)
    ensures ResolveSigner(policy, partyFrom, token) != Err(Escaped(AcceptorFailed))
  {
  }

  lemma SignatureAsksNobody(v: SignatureVerdict)
    ensures SignatureFault(v) != Some(Escaped(AcceptorFailed))
  {
  }

  lemma SignedAsksNobody(policy: SecurityPolicy, doc: Element, signature: Model, token: Model, userMessage: Model,
                         index: map<string, Element>)
    ensures SignedBy(policy, doc, signature, token, userMessage, index) != Err(Escaped(AcceptorFailed))
  {
    var partyFrom := Child(Child(userMessage, PartyInfo), From);
    ResolutionAsksNobody(policy, partyFrom, token);
    if ResolveSigner(policy, partyFrom, token).Ok? {
      SignatureAsksNobody(VerifySignature(signature, SignedInfoIn(doc), ResolveSigner(policy, partyFrom, token).value));
    }
  }

  lemma AuthenticateAsksNobody(c: Context, doc: Element, attachments: Attachments, p: Progress)
    ensures Authenticate(c, doc, attachments, p).progress.asked == p.asked
    ensures FaultOf(Authenticate(c, doc, attachments, p)) != Some(Escaped(AcceptorFailed))
  {
    if Load(ENVELOPE, doc).Ok? {
      var envelope := Load(ENVELOPE, doc).value;
      var token := SigningToken(SecurityOf(envelope), Child(SecurityOf(envelope), Signature));
      if IndexById(doc).Ok? && token.Some? && RequiredUserMessage(envelope).Ok? {
        SignedAsksNobody(c.policy, doc, Child(SecurityOf(envelope), Signature), token.value,
                         RequiredUserMessage(envelope).value, IndexById(doc).value);
      }
    }
  }

  lemma ContentAsksNobody(c: Context, p: Progress)
    requires p.fields.envelope.Some?
    ensures Decrypt(c, p).progress.asked == p.asked && Unpack(c, p).progress.asked == p.asked
    ensures Decrypt(c, p).Stop? ==> Decrypt(c, p).fault.Refused?
    ensures Unpack(c, p).Stop? ==> Unpack(c, p).fault.Refused?
  {
  }

  lemma CoreAsksNobody(c: Context, doc: Element, attachments: Attachments, p: Progress)
    ensures CoreProcess(c, doc, attachments, p).progress.asked == p.asked
    ensures FaultOf(CoreProcess(c, doc, attachments, p)) != Some(Escaped(AcceptorFailed))
  {
    AuthenticateAsksNobody(c, doc, attachments, p);
    var r1 := Authenticate(c, doc, attachments, p);
    if r1.Continue? {
      ContentAsksNobody(c, r1.progress);
      var r2 := Decrypt(c, r1.progress);
      if r2.Continue? {
        ContentAsksNobody(c, r2.progress);
      }
    }
  }

  lemma PipelineIsDecided(c: Context, w: Wire)
    ensures Decided(c, Pipeline(c, w))
  {
    if w.soap.Xml? {
      var start := Progress(NO_FIELDS, []);
      IdentifyAsksNobody(w.soap.root, start);
      var r1 := Identify(w.soap.root, start);
      if r1.Continue? {
        CoreAsksNobody(c, w.soap.root, w.attachments, r1.progress);
        var r2 := CoreProcess(c, w.soap.root, w.attachments, r1.progress);
        if r2.Continue? {
          RoutingIsDecided(c, r2.progress);
        }
      }
    }
  }

  /** The acceptor's verdict about the recipient is the outcome: only a recipient that it accepts is; one
      that it does not service is refused as such, one that it refuses is refused with its own refusal, and
      its failure escapes. A message about which it was not asked is not accepted. */
  lemma AcceptorDecides(c: Context, w: Wire)
    requires c.acceptor.Some?
    ensures match Parse(c, w)
            case Returned(m, asked) =>
              if m.error.None? then
                m.recipient.Some? && asked == [m.recipient.value] && c.acceptor.value(m.recipient.value) == Accepted
              else
                asked == [] || (|asked| == 1 && m.recipient == Some(asked[0]) &&
                                match c.acceptor.value(asked[0])
                                case Accepted => m.error == Some(PeppolSbdh)
                                case NotServiced => m.error == Some(PeppolNotServiced)
                                case RefusedWith(r) => m.error == Some(r)
                                case Failed => false)
            case Raised(f, asked) =>
              f == AcceptorFailed <==> |asked| == 1 && c.acceptor.value(asked[0]) == Failed
  {
    PipelineIsDecided(c, w);
    PipelineHasNoError(c, w);
  }
}
