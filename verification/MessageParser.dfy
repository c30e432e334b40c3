/** The loops and the shared field dictionary of message parsing, proved against the specification
    (as4/core/message.py, as4/profiles/peppol/message.py). */
module MessageParser {
  import opened Terms
  import opened XmlMapping
  import opened Schemas
  import opened Documents
  import opened Dsig
  import opened Errors
  import opened Messages
  import opened DocumentIdentifier
  import opened Peppol

  // ---------------------------------------------------------------- coverage and digests

  /** The tags covered so far. */
  ghost function CoveredTagsOf(references: seq<Model>, index: map<string, Element>): set<Coverage> {
    (if CoversTag(references, index, Messaging) then {MessagingCovered} else {})
    + (if CoversTag(references, index, Body) then {BodyCovered} else {})
  }

  function TagCoverage(t: Tag): set<Coverage> {
    if t == Messaging then {MessagingCovered} else if t == Body then {BodyCovered} else {}
  }

  lemma CoversOneMore(references: seq<Model>, r: Model, index: map<string, Element>, t: Tag)
    ensures CoversTag(references + [r], index, t) <==>
              CoversTag(references, index, t)
              || (!IsCid(UriOf(r)) && Target(r, index).Some? && Target(r, index).value.tag == t)
  {
    assert r in references + [r];
    assert forall x :: x in references + [r] <==> x in references || x == r;
  }

  lemma CoveredOneMore(references: seq<Model>, r: Model, index: map<string, Element>)
    ensures CoveredTagsOf(references + [r], index)
         == CoveredTagsOf(references, index)
            + if !IsCid(UriOf(r)) && Target(r, index).Some? then TagCoverage(Target(r, index).value.tag) else {}
  {
    CoversOneMore(references, r, index, Messaging);
    CoversOneMore(references, r, index, Body);
  }

  lemma SignedOneMore(references: seq<Model>, r: Model)
    ensures SignedPayloads(references + [r]) == SignedPayloads(references) + if IsCid(UriOf(r)) then {UriOf(r)} else {}
  {
    assert forall x :: x in references + [r] <==> x in references || x == r;
  }

  /** signature_coverage: one pass over the references grows two sets. */
  method SignatureCoverage(references: seq<Model>, index: map<string, Element>, hrefs: set<string>)
    returns (covered: set<Coverage>)
    ensures covered == CoverageOf(references, index, hrefs)
  {
    covered := {};
    var signedPayloads: set<string> := {};
    for i := 0 to |references|
      invariant covered == CoveredTagsOf(references[..i], index)
      invariant signedPayloads == SignedPayloads(references[..i])
    {
      var r := references[i];
      CoveredOneMore(references[..i], r, index);
      SignedOneMore(references[..i], r);
      assert references[..i + 1] == references[..i] + [r];
      if IsCid(UriOf(r)) {
        signedPayloads := signedPayloads + {UriOf(r)};
        continue;
      }
      var target := Target(r, index);
      if target.Some? {
        covered := covered + TagCoverage(target.value.tag);
      }
    }
    assert references[..|references|] == references;
    if hrefs <= signedPayloads {
      covered := covered + {PayloadsCovered};
    }
  }

  /** verify_reference_digests. */
  method VerifyReferenceDigests(references: seq<Model>, index: map<string, Element>) returns (fault: Option<Refusal>)
    ensures fault == ElementDigestFault(references, index)
  {
    for i := 0 to |references|
      invariant ElementDigestFault(references, index) == ElementDigestFault(references[i..], index)
    {
      var r := references[i];
      assert references[i..][0] == r && references[i..][1..] == references[i + 1..];
      if IsCid(UriOf(r)) {
        continue;
      }
      var target := Target(r, index);
      if target.None? {
        return Some(ReferenceTargetNotFound(UriOf(r)));
      }
      var refusal := DigestRefusal(ElementDigestMatches(r, target.value), UriOf(r));
      if refusal.Some? {
        return refusal;
      }
    }
    fault := None;
  }

  /** verify_attachment_digests. */
  method VerifyAttachmentDigests(references: seq<Model>, attachments: map<string, Bytes>)
    returns (fault: Option<Refusal>)
    ensures fault == AttachmentDigestFault(references, attachments)
  {
    for i := 0 to |references|
      invariant AttachmentDigestFault(references, attachments) == AttachmentDigestFault(references[i..], attachments)
    {
      var r := references[i];
      assert references[i..][0] == r && references[i..][1..] == references[i + 1..];
      if !IsCid(UriOf(r)) {
        continue;
      }
      if WithoutCid(UriOf(r)) !in attachments {
        return Some(ReferenceTargetNotFound(UriOf(r)));
      }
      var refusal := DigestRefusal(BytesDigestMatches(r, attachments[WithoutCid(UriOf(r))]), UriOf(r));
      if refusal.Some? {
        return refusal;
      }
    }
    fault := None;
  }

  /** The checks of get_verified_signature that follow signature.verify. */
  method VerifyContent(policy: SecurityPolicy, references: seq<Model>, userMessage: Model, index: map<string, Element>)
    returns (fault: Option<Refusal>)
    ensures fault == ContentFault(policy, references, userMessage, index)
  {
    var covered := SignatureCoverage(references, index, DeclaredHrefs(userMessage));
    var missing := policy.requiredCoverage - covered;
    if missing != {} {
      return Some(Refusal.SignatureCoverage(missing));
    }
    fault := None;
    if policy.verifyDigests {
      fault := VerifyReferenceDigests(references, index);
    }
  }

  // ---------------------------------------------------------------- decryption

  /** The reference loop of get_decrypted_data. */
  method DecryptAttachments(references: seq<Model>, security: Model, attachments: map<string, Bytes>,
                            session: SessionKey)
    returns (r: Result<map<string, Bytes>, Refusal>)
    ensures r == DecryptReferences(references, security, attachments, session, map[])
  {
    var decrypted: map<string, Bytes> := map[];
    for i := 0 to |references|
      invariant DecryptReferences(references, security, attachments, session, map[])
             == DecryptReferences(references[i..], security, attachments, session, decrypted)
    {
      var found := DecryptReference(references[i], security, attachments, session);
      assert references[i..][1..] == references[i + 1..];
      if found.Err? {
        return Err(found.error);
      }
      decrypted := decrypted[found.value.id := found.value.content];
    }
    r := Ok(decrypted);
  }

  /** get_decrypted_data. */
  method GetDecryptedData(policy: SecurityPolicy, key: Key, security: Model, attachments: map<string, Bytes>)
    returns (r: Result<map<string, Bytes>, Refusal>)
    ensures r == DecryptedData(policy, key, security, attachments)
  {
    if OptionalChild(security, EncryptedKey).None? {
      if policy.encryptRequired {
        return Err(EncryptionRequired);
      }
      return Ok(map[]);
    }
    var session := SessionKeyOf(security, key);
    if session.Err? {
      return Err(session.error);
    }
    r := DecryptAttachments(DataReferences(security), security, attachments, session.value);
  }

  // ---------------------------------------------------------------- the field dictionary

  /** The dictionary that parsing fills, which keeps what was filled when a step raises. `asked` are the
      participants the acceptor has been called with. */
  class FieldDictionary {
    var fields: Message
    var asked: seq<Text>

    constructor ()
      ensures View() == Progress(NO_FIELDS, [])
    {
      fields, asked := NO_FIELDS, [];
    }

    ghost function View(): Progress
      reads this
    {
      Progress(fields, asked)
    }

    /** The step that has ended with this fault, or without one. */
    ghost function Ended(fault: Option<Fault>): Step
      reads this
    {
      if fault.Some? then Stop(View(), fault.value) else Continue(View())
    }

    /** parse, up to process: the identifiers and the addressee. */
    method FillIds(doc: Element) returns (fault: Option<Fault>)
      modifies this
      ensures Ended(fault) == Identify(doc, old(View()))
    {
      var ids := ReadIds(doc);
      if ids.Err? {
        return Some(Refused(ids.error));
      }
      fields := fields.(messageId := ids.value.0, messagingId := ids.value.1);
      var to := AddressedTo(doc);
      if to.Err? {
        return Some(Refused(to.error));
      }
      fields := fields.(addressedTo := Some(to.value));
      fault := None;
    }

    /** process, up to the signer certificate. */
    method FillSigner(c: Context, doc: Element, attachments: Attachments) returns (fault: Option<Fault>)
      modifies this
      ensures Ended(fault) == Authenticate(c, doc, attachments, old(View()))
    {
      fields := fields.(attachments := attachments);
      var envelope := Load(ENVELOPE, doc);
      if envelope.Err? {
        return Some(Refused(FromValidationError(envelope.error)));
      }
      fields := fields.(envelope := Some(envelope.value));
      var index := IndexElementsById(doc);
      if index.Err? {
        return Some(Refused(DuplicateElementId(index.error)));
      }
      var signer := GetVerifiedSigner(c.policy, doc, envelope.value, index.value);
      if signer.Err? {
        return Some(signer.error);
      }
      fields := fields.(signer := signer.value);
      fault := None;
    }

    /** process: the decrypted data, and the digests of the signed attachments. */
    method FillDecrypted(c: Context) returns (fault: Option<Fault>)
      requires fields.envelope.Some?
      modifies this
      ensures Ended(fault) == Decrypt(c, old(View()))
    {
      var security := SecurityOf(fields.envelope.value);
      var data := GetDecryptedData(c.policy, c.key, security, fields.attachments.parts);
      if data.Err? {
        return Some(Refused(data.error));
      }
      ghost var references := SignatureReferences(fields);
      fields := fields.(decrypted := data.value);
      assert SignatureReferences(fields) == references;
      fault := None;
      if OptionalChild(security, Signature).Some? && c.policy.verifyDigests {
        var refusal := VerifyAttachmentDigests(SignatureReferences(fields), data.value);
        if refusal.Some? {
          return Some(Refused(refusal.value));
        }
      }
    }

    /** process: every declared part replaces its own entry of the decrypted data by its decompression. */
    method FillDecompressed(c: Context) returns (fault: Option<Fault>)
      requires fields.envelope.Some?
      modifies this
      ensures Ended(fault) == Unpack(c, old(View()))
    {
      var userMessage := RequiredUserMessage(fields.envelope.value);
      if userMessage.Err? {
        return Some(Refused(userMessage.error));
      }
      if OptionalChild(userMessage.value, PayloadInfo).None? {
        return Some(Refused(PayloadInfoNotFound));
      }
      var parts := PartInfos(userMessage.value);
      ghost var before, attachments := View(), fields.attachments.parts;
      ghost var expected := DecompressParts(parts, attachments, fields.decrypted, c.policy.maximumSize, c.sizeOf);
      for i := 0 to |parts|
        invariant View() == before.(fields := before.fields.(decrypted := fields.decrypted))
        invariant expected == DecompressParts(parts[i..], attachments, fields.decrypted, c.policy.maximumSize, c.sizeOf)
      {
        var part := parts[i];
        assert parts[i..][0] == part && parts[i..][1..] == parts[i + 1..];
        var id := WithoutCid(HrefOf(part));
        if HrefOf(part) == "" {
          continue;
        }
        if id !in fields.attachments.parts {
          return Some(Refused(PartInfoWithoutMimePart(HrefOf(part))));
        }
        if id !in fields.decrypted {
          continue;
        }
        var content := Decompress(part, fields.decrypted[id], c.policy.maximumSize, c.sizeOf);
        if content.Err? {
          return Some(Refused(content.error));
        }
        fields := fields.(decrypted := fields.decrypted[id := content.value]);
      }
      fault := None;
    }

    /** AS4Message.process. */
    method Process(c: Context, doc: Element, attachments: Attachments) returns (fault: Option<Fault>)
      modifies this
      ensures Ended(fault) == CoreProcess(c, doc, attachments, old(View()))
    {
      fault := FillSigner(c, doc, attachments);
      if fault.Some? {
        return;
      }
      fault := FillDecrypted(c);
      if fault.Some? {
        return;
      }
      fault := FillDecompressed(c);
    }

    /** The acceptor's call: the participant it is called with is recorded. */
    method AskAcceptor(c: Context, recipient: Text) returns (fault: Option<Fault>)
      modifies this
      ensures Ended(fault) == Ask(c, recipient, old(View()))
    {
      if c.acceptor.None? {
        return None;
      }
      asked := asked + [recipient];
      fault := AcceptorFault(c.acceptor.value(recipient));
    }

    /** process_sbdh, from the validated header on. */
    method FillRouting(c: Context, userMessage: Model, header: Model) returns (fault: Option<Fault>)
      modifies this
      ensures Ended(fault) == Route(c, userMessage, header, old(View()))
    {
      var recipient := TextOf(ParticipantOf(header, Receiver));
      fields := fields.(sender := Some(TextOf(ParticipantOf(header, Sender))));
      fields := fields.(recipient := Some(recipient));
      if c.policy.verifyParticipants && !ParticipantsAgree(userMessage, header) {
        return Some(Refused(PeppolSbdh));
      }
      fault := AskAcceptor(c, recipient);
      if fault.Some? {
        return;
      }
      var document, process := FindScope(ScopesOf(header), DOCUMENTID), FindScope(ScopesOf(header), PROCESSID);
      if document.None? || process.None? || FindScope(ScopesOf(header), COUNTRY_C1).None? {
        return Some(Refused(PeppolSbdh));
      }
      fields := fields.(documentType := Some(TextOf(Child(document.value, InstanceIdentifier))));
      fields := fields.(documentScheme := Some(
        if OptionalChild(document.value, Identifier).Some? then TextOf(Child(document.value, Identifier))
        else Plain(BUSDOX_DOCID_QNS)));
      fields := fields.(process := Some(TextOf(Child(process.value, InstanceIdentifier))));
    }

    /** process_sbdh. */
    method FillSbdh(c: Context) returns (fault: Option<Fault>)
      requires fields.envelope.Some?
      modifies this
      ensures Ended(fault) == ProcessSbdh(c, old(View()))
    {
      var userMessage := RequiredUserMessage(fields.envelope.value);
      if userMessage.Err? {
        return Some(Refused(userMessage.error));
      }
      if !PartiesArePeppol(userMessage.value) {
        return Some(Refused(PeppolPartyIdentifier));
      }
      var payload := FirstPayload(fields);
      if payload.None? {
        return Some(Refused(PeppolSbdh));
      }
      var header := BusinessHeader(c, payload.value);
      if header.None? {
        return Some(Refused(PeppolSbdh));
      }
      fault := FillRouting(c, userMessage.value, header.value);
    }

    /** The steps of parse, in order, from an empty dictionary. */
    method Fill(c: Context, w: Wire) returns (fault: Option<Fault>)
      requires View() == Progress(NO_FIELDS, [])
      modifies this
      ensures Ended(fault) == Pipeline(c, w)
    {
      var doc := ParseXml(w.soap);
      if doc.None? {
        return Some(Refused(MalformedSoapEnvelope));
      }
      fault := FillIds(doc.value);
      if fault.Some? {
        return;
      }
      fault := Process(c, doc.value, w.attachments);
      if fault.Some? {
        return;
      }
      fault := FillSbdh(c);
    }
  }

  /** parse: the dictionary becomes the message, with the refusal that ended parsing; a local fault is
      raised instead. */
  method ParseWire(c: Context, w: Wire) returns (o: Outcome)
    ensures o == Peppol.Parse(c, w)
  {
    var dictionary := new FieldDictionary();
    var fault := dictionary.Fill(c, w);
    match fault {
      case None => o := Returned(dictionary.fields, dictionary.asked);
      case Some(Refused(r)) => o := Returned(dictionary.fields.(error := Some(r)), dictionary.asked);
      case Some(Escaped(f)) => o := Raised(f, dictionary.asked);
    }
  }

  /** get_verified_signature. */
  method GetVerifiedSigner(policy: SecurityPolicy, doc: Element, envelope: Model, index: map<string, Element>)
    returns (r: Result<Option<Certificate>, Fault>)
    ensures r == VerifiedSigner(policy, doc, envelope, index)
  {
    var security := SecurityOf(envelope);
    if OptionalChild(security, Signature).None? {
      return if policy.signRequired then Err(Refused(SignatureRequired)) else Ok(None);
    }
    var signature := Child(security, Signature);
    var token := SigningToken(security, signature);
    if token.None? {
      return Err(Refused(SecurityTokenReferenceNotFound));
    }
    var userMessage := RequiredUserMessage(envelope);
    if userMessage.Err? {
      return Err(Refused(userMessage.error));
    }
    var signer := ResolveSigner(policy, Child(Child(userMessage.value, PartyInfo), From), token.value);
    if signer.Err? {
      return Err(signer.error);
    }
    var fault := SignatureFault(VerifySignature(signature, SignedInfoIn(doc), signer.value));
    if fault.Some? {
      return Err(fault.value);
    }
    var content := VerifyContent(policy, ReferencesOf(signature), userMessage.value, index);
    if content.Some? {
      return Err(Refused(content.value));
    }
    r := Ok(Some(signer.value));
  }
}
