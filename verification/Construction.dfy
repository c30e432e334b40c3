/** What a built document contains, as its reader finds it: the digests that were computed while building
    are the ones that verify (as4/profiles/peppol/message.py, as4/core/receipt.py). */
module Construction {
  import opened Terms
  import opened XmlMapping
  import opened Schemas
  import opened Documents
  import opened Dsig
  import opened Messages
  import opened Receipts
  import opened Envelopes
  import opened Authenticity

  // ---------------------------------------------------------------- identifiers of dumped elements

  lemma {:induction false} AttributeIsWritten(s: Schema, m: Model, n: AttributeName)
    requires HasAttribute(s, n) && n in m.attributes && m.attributes[n] != ""
    ensures Attribute(n, m.attributes[n]) in DumpAttributes(s, m)
  {
    if !(s.AttributeField? && s.name == n) {
      AttributeIsWritten(s.rest, m, n);
    }
  }

  lemma OwnIdIsListed(e: Element, attributes: seq<Attribute>, a: Attribute)
    requires a in attributes && NamesAnId(a.name)
    ensures IdEntry(a.value, e) in OwnIds(e, attributes)
  {
  }

  /** A dumped element is listed under the identifier of its model. */
  lemma DumpedIdIsListed(s: Schema, t: Tag, m: Model, id: string)
    requires HasAttribute(s, WsuId) && AttributeOf(m, WsuId) == Some(id) && id != ""
    ensures IdEntry(id, Dump(s, t, m)) in IdAttributes(Dump(s, t, m))
  {
    var e := Dump(s, t, m);
    AttributeIsWritten(s, m, WsuId);
    OwnIdIsListed(e, e.attributes, Attribute(WsuId, id));
  }

  lemma ChildIdsAreListed(es: seq<Element>, e: Element, x: IdEntry)
    requires e in es && x in IdAttributes(e)
    ensures x in IdsOfAll(es)
  {
  }

  lemma IdsAreListed(e: Element, t: Tag, child: Element, x: IdEntry)
    requires OnlyTagged(e, t, child) && x in IdAttributes(child)
    ensures x in IdAttributes(e)
  {
    TaggedAreChildren(e.children, t);
    assert child in Tagged(e.children, t);
    ChildIdsAreListed(e.children, child, x);
  }

  // ---------------------------------------------------------------- the envelope

  function HeaderModel(security: Model, messaging: Model): Model {
    Model(map[], None, map[Security := [security], Messaging := [messaging]])
  }

  function EnvelopeElement(security: Model, messaging: Model, ids: References): Element {
    Dump(ENVELOPE, Envelope, EnvelopeModel(security, messaging, ids))
  }

  lemma EnvelopeChildren(security: Model, messaging: Model, ids: References)
    ensures Children(EnvelopeModel(security, messaging, ids), Header) == [HeaderModel(security, messaging)]
    ensures Children(EnvelopeModel(security, messaging, ids), Body) == [BodyModel(ids)]
    ensures Children(HeaderModel(security, messaging), Security) == [security]
    ensures Children(HeaderModel(security, messaging), Messaging) == [messaging]
  {
  }

  lemma EnvelopeNests()
    ensures Nests(ENVELOPE, Header, HEADER) && Nests(ENVELOPE, Body, BODY)
    ensures Nests(HEADER, Security, SECURITY) && Nests(HEADER, Messaging, MESSAGING)
  {
    EnvelopeFields();
    FieldLater(ENVELOPE, Body);
    FieldHere(ENVELOPE.rest);
  }

  lemma HeaderAliases()
    ensures DistinctAliases(HEADER)
  {
    MessagingAliases();
    SecurityAliases();
    TwoFieldClass(Security, One, SECURITY, Messaging, One, MESSAGING, End);
  }

  /** The blocks of a built document. */
  lemma EnvelopeBlocks(security: Model, messaging: Model, ids: References)
    ensures var doc := EnvelopeElement(security, messaging, ids);
            var header := Dump(HEADER, Header, HeaderModel(security, messaging));
            && OnlyTagged(doc, Header, header)
            && OnlyTagged(doc, Body, Dump(BODY, Body, BodyModel(ids)))
            && OnlyTagged(header, Security, Dump(SECURITY, Security, security))
            && OnlyTagged(header, Messaging, Dump(MESSAGING, Messaging, messaging))
  {
    EnvelopeChildren(security, messaging, ids);
    EnvelopeNests();
    EnvelopeAliases();
    HeaderAliases();
    DumpedChild(ENVELOPE, Envelope, EnvelopeModel(security, messaging, ids), Header, HEADER,
                HeaderModel(security, messaging));
    DumpedChild(ENVELOPE, Envelope, EnvelopeModel(security, messaging, ids), Body, BODY, BodyModel(ids));
    DumpedChild(HEADER, Header, HeaderModel(security, messaging), Security, SECURITY, security);
    DumpedChild(HEADER, Header, HeaderModel(security, messaging), Messaging, MESSAGING, messaging);
  }

  lemma IdFields()
    ensures HasAttribute(MESSAGING, WsuId) && HasAttribute(BODY, WsuId)
  {
    AttributeLater(MESSAGING, WsuId);
    AttributeLater(MESSAGING.rest, WsuId);
    AttributeHere(MESSAGING.rest.rest, WsuId);
    AttributeHere(BODY, WsuId);
  }

  lemma HeaderIdsAreListed(security: Model, messaging: Model, ids: References)
    requires AttributeOf(messaging, WsuId) == Some(ids.messagingId) && ids.messagingId != "" && ids.bodyId != ""
    ensures var doc := EnvelopeElement(security, messaging, ids);
            && IdEntry(ids.messagingId, Dump(MESSAGING, Messaging, messaging)) in IdAttributes(doc)
            && IdEntry(ids.bodyId, Dump(BODY, Body, BodyModel(ids))) in IdAttributes(doc)
  {
    var doc := EnvelopeElement(security, messaging, ids);
    var header := Dump(HEADER, Header, HeaderModel(security, messaging));
    EnvelopeBlocks(security, messaging, ids);
    IdFields();
    var block := IdEntry(ids.messagingId, Dump(MESSAGING, Messaging, messaging));
    DumpedIdIsListed(MESSAGING, Messaging, messaging, ids.messagingId);
    IdsAreListed(header, Messaging, block.element, block);
    IdsAreListed(doc, Header, header, block);
    var body := IdEntry(ids.bodyId, Dump(BODY, Body, BodyModel(ids)));
    DumpedIdIsListed(BODY, Body, BodyModel(ids), ids.bodyId);
    IdsAreListed(doc, Body, body.element, body);
  }

  /** When the identifiers of a built document are distinct, looking up the messaging or the body
      identifier in it yields the tree that dumping that model alone yields. */
  lemma BuiltBlocksAreFound(security: Model, messaging: Model, ids: References)
    requires AttributeOf(messaging, WsuId) == Some(ids.messagingId) && ids.messagingId != "" && ids.bodyId != ""
    requires DistinctIds(IdAttributes(EnvelopeElement(security, messaging, ids)))
    ensures var index := IndexById(EnvelopeElement(security, messaging, ids));
            && index.Ok?
            && ids.messagingId in index.value
            && index.value[ids.messagingId] == Dump(MESSAGING, Messaging, messaging)
            && ids.bodyId in index.value
            && index.value[ids.bodyId] == Dump(BODY, Body, BodyModel(ids))
  {
    IndexIsExact(EnvelopeElement(security, messaging, ids));
    HeaderIdsAreListed(security, messaging, ids);
  }

  // ---------------------------------------------------------------- references

  /** A built reference, read back, still verifies on its own content. */
  lemma DumpedReferenceMatches(uri: string, transform: string, content: Bytes)
    requires transform != ""
    ensures DigestMatches(Norm(REFERENCE, ReferenceModel(uri, transform, content)), transform, content) == Matches
    ensures UriOf(Norm(REFERENCE, ReferenceModel(uri, transform, content))) == uri
  {
    var r := ReferenceModel(uri, transform, content);
    var read := Norm(REFERENCE, r);
    NormAttributeOr(REFERENCE, r, Uri);
    DumpedTransform(uri, transform, content);
    assert TransformsOf(read) == [TransformsOf(read)[0]];
    DigestAlgorithmSurvivesDump(r);
    DigestValueSurvivesDump(r);
    assert DigestAlgorithmOf(r) == SHA256;
    assert DigestValueOf(r) == DigestText(SHA256, content);
  }

  /** A reference read back from a document resolves to the built element and verifies on it. */
  ghost predicate Verifies(reference: Model, index: map<string, Element>, e: Element) {
    !IsCid(UriOf(reference)) && Target(reference, index) == Some(e) && ElementDigestMatches(reference, e) == Matches
  }

  lemma ElementReferenceVerifies(id: string, e: Element, index: map<string, Element>)
    requires id in index && index[id] == e
    ensures Verifies(Norm(REFERENCE, ElementReference(id, e)), index, e)
  {
    DumpedReferenceMatches("#" + id, EXCLUSIVE_C14N, Xml(e));
    ElementUri(id);
  }

  /** What the builder digests is what the verifier digests: the two references that both builders make
      for the header block and the body verify in the document they were built into. */
  lemma BuiltReferencesVerify(security: Model, messaging: Model, ids: References)
    requires AttributeOf(messaging, WsuId) == Some(ids.messagingId) && ids.messagingId != "" && ids.bodyId != ""
    requires DistinctIds(IdAttributes(EnvelopeElement(security, messaging, ids)))
    ensures var index := IndexById(EnvelopeElement(security, messaging, ids));
            && index.Ok?
            && Verifies(Norm(REFERENCE, HeaderReferences(ids, messaging)[0]), index.value,
                        Dump(MESSAGING, Messaging, messaging))
            && Verifies(Norm(REFERENCE, HeaderReferences(ids, messaging)[1]), index.value,
                        Dump(BODY, Body, BodyModel(ids)))
  {
    BuiltBlocksAreFound(security, messaging, ids);
    var index := IndexById(EnvelopeElement(security, messaging, ids)).value;
    ElementReferenceVerifies(ids.messagingId, Dump(MESSAGING, Messaging, messaging), index);
    ElementReferenceVerifies(ids.bodyId, Dump(BODY, Body, BodyModel(ids)), index);
  }

  // ---------------------------------------------------------------- the signature

  /** A signature over these references, in this security header, where its SignedInfo is the signed one. */
  lemma SignedInfoIsFound(security: Model, messaging: Model, ids: References, signature: Model, references: seq<Model>)
    requires Children(security, Signature) == [signature]
    requires Children(signature, SignedInfo) == [SignedInfoModel(references)]
    ensures SignedInfoIn(EnvelopeElement(security, messaging, ids)) == SignedInfoElement(references)
  {
    EnvelopeBlocks(security, messaging, ids);
    SecurityFields();
    SignatureFields();
    SecurityAliases();
    SignatureAliases();
    DumpedChild(SECURITY, Security, security, Signature, SIGNATURE, signature);
    DumpedChild(SIGNATURE, Signature, signature, SignedInfo, SIGNED_INFO, SignedInfoModel(references));
  }

  lemma SignaturePartsNest()
    ensures Nests(SIGNATURE, SignedInfo, SIGNED_INFO) && Nests(SIGNATURE, KeyInfo, KEY_INFO)
    ensures Nests(KEY_INFO, SecurityTokenReference, SECURITY_TOKEN_REFERENCE)
    ensures Nests(SECURITY_TOKEN_REFERENCE, TokenReference, TOKEN_REFERENCE)
    ensures HasAttribute(TOKEN_REFERENCE, Uri)
  {
    SignatureFields();
    FieldLater(SIGNATURE, KeyInfo);
    FieldLater(SIGNATURE.rest, KeyInfo);
    FieldHere(SIGNATURE.rest.rest);
    FieldLater(KEY_INFO, SecurityTokenReference);
    FieldHere(KEY_INFO.rest);
    FieldLater(SECURITY_TOKEN_REFERENCE, TokenReference);
    FieldLater(SECURITY_TOKEN_REFERENCE.rest, TokenReference);
    FieldHere(SECURITY_TOKEN_REFERENCE.rest.rest);
    AttributeHere(TOKEN_REFERENCE, Uri);
  }

  lemma SignedInfoNests()
    ensures Nests(SIGNED_INFO, CanonicalizationMethod, REQUIRED_ALGORITHM)
    ensures Nests(SIGNED_INFO, SignatureMethod, REQUIRED_ALGORITHM)
    ensures Nests(SIGNED_INFO, Reference, REFERENCE)
  {
    FieldHere(SIGNED_INFO);
    FieldLater(SIGNED_INFO, SignatureMethod);
    FieldHere(SIGNED_INFO.rest);
    SignedInfoFields();
  }

  lemma TokenUriReadsBack(signature: Schema, keyInfo: Schema, tokenReference: Schema, token: Schema, m: Model)
    requires Nests(signature, KeyInfo, keyInfo) && Nests(keyInfo, SecurityTokenReference, tokenReference)
    requires Nests(tokenReference, TokenReference, token) && HasAttribute(token, Uri)
    ensures TokenUri(Norm(signature, m)) == TokenUri(m)
  {
    var k := Child(m, KeyInfo);
    var r := Child(k, SecurityTokenReference);
    NormChild(signature, m, KeyInfo);
    NormChild(keyInfo, k, SecurityTokenReference);
    NormChild(tokenReference, r, TokenReference);
    NormAttributeOr(token, Child(r, TokenReference), Uri);
  }

  lemma SignatureModelParts(ids: References, key: Key, references: seq<Model>)
    ensures var m := SignatureOf(ids, key, references);
            && TokenUri(m) == "#" + ids.signatureTokenId
            && Children(m, SignedInfo) == [SignedInfoModel(references)]
            && Child(m, SignatureValue) == TextModel(Signed(key, references))
  {
  }

  lemma AlgorithmReadsBack(s: Schema, m: Model, t: Tag, inner: Schema, algorithm: string)
    requires Nests(s, t, inner) && HasAttribute(inner, Algorithm)
    requires AttributeOf(Child(m, t), Algorithm) == Some(algorithm) && algorithm != ""
    ensures AttributeOf(Child(Norm(s, m), t), Algorithm) == Some(algorithm)
  {
    NormChild(s, m, t);
    NormAttributeSome(inner, Child(m, t), Algorithm, algorithm);
  }

  lemma CryptographicTextReadsBack(s: Schema, m: Model, t: Tag, inner: Schema, value: Text)
    requires Nests(s, t, inner) && HasText(inner)
    requires Child(m, t) == TextModel(value) && !value.Plain?
    ensures Child(Norm(s, m), t).text == Some(value)
  {
    NormChild(s, m, t);
    NormText(inner, TextModel(value));
  }

  lemma SignedInfoParts(references: seq<Model>)
    ensures var i := SignedInfoModel(references);
            && AttributeOf(Child(i, CanonicalizationMethod), Algorithm) == Some(EXCLUSIVE_C14N)
            && AttributeOf(Child(i, SignatureMethod), Algorithm) == Some(RSA_SHA256)
            && Children(i, Reference) == references
  {
  }

  lemma SignedInfoReadsBack(references: seq<Model>)
    ensures var m := Norm(SIGNED_INFO, SignedInfoModel(references));
            && Children(m, Reference) == NormAll(REFERENCE, references)
            && AttributeOf(Child(m, CanonicalizationMethod), Algorithm) == Some(EXCLUSIVE_C14N)
            && AttributeOf(Child(m, SignatureMethod), Algorithm) == Some(RSA_SHA256)
  {
    var i := SignedInfoModel(references);
    SignedInfoNests();
    SignedInfoParts(references);
    NormChildren(SIGNED_INFO, i, Reference);
    AttributeHere(REQUIRED_ALGORITHM, Algorithm);
    assert EXCLUSIVE_C14N != "" && RSA_SHA256 != "";
    AlgorithmReadsBack(SIGNED_INFO, i, CanonicalizationMethod, REQUIRED_ALGORITHM, EXCLUSIVE_C14N);
    AlgorithmReadsBack(SIGNED_INFO, i, SignatureMethod, REQUIRED_ALGORITHM, RSA_SHA256);
  }

  /** A built signature, read back: its token, its references and its value. */
  lemma SignatureReadsBack(ids: References, key: Key, references: seq<Model>)
    ensures var read := Norm(SIGNATURE, SignatureOf(ids, key, references));
            && TokenUri(read) == "#" + ids.signatureTokenId
            && Child(read, SignedInfo) == Norm(SIGNED_INFO, SignedInfoModel(references))
            && Child(read, SignatureValue).text == Some(Signed(key, references))
  {
    SignatureModelParts(ids, key, references);
    SignaturePartsNest();
    SignatureFields();
    SignaturePartsReadBack(SIGNATURE, KEY_INFO, SECURITY_TOKEN_REFERENCE, TOKEN_REFERENCE, SIGNED_INFO,
                           FieldFor(SIGNATURE, SignatureValue).schema, SignatureOf(ids, key, references),
                           Signed(key, references));
  }

  lemma SignaturePartsReadBack(signature: Schema, keyInfo: Schema, tokenReference: Schema, token: Schema,
                               signedInfo: Schema,
                               text: Schema, m: Model, value: Text)
    requires Nests(signature, KeyInfo, keyInfo) && Nests(keyInfo, SecurityTokenReference, tokenReference)
    requires Nests(tokenReference, TokenReference, token) && HasAttribute(token, Uri)
    requires Nests(signature, SignedInfo, signedInfo) && Nests(signature, SignatureValue, text) && HasText(text)
    requires Child(m, SignatureValue) == TextModel(value) && !value.Plain?
    ensures TokenUri(Norm(signature, m)) == TokenUri(m)
    ensures Child(Norm(signature, m), SignedInfo) == Norm(signedInfo, Child(m, SignedInfo))
    ensures Child(Norm(signature, m), SignatureValue).text == Some(value)
  {
    TokenUriReadsBack(signature, keyInfo, tokenReference, token, m);
    NormChild(signature, m, SignedInfo);
    CryptographicTextReadsBack(signature, m, SignatureValue, text, value);
  }

  /** A built signature verifies under the certificate of the key that made it. */
  lemma BuiltSignatureVerifies(ids: References, key: Key, references: seq<Model>, certificate: Certificate)
    requires certificate.rsa && certificate.key == key
    ensures VerifySignature(Norm(SIGNATURE, SignatureOf(ids, key, references)), SignedInfoElement(references),
                            certificate)
         == Verified
    ensures ReferencesOf(Norm(SIGNATURE, SignatureOf(ids, key, references))) == NormAll(REFERENCE, references)
  {
    SignatureReadsBack(ids, key, references);
    SignedInfoReadsBack(references);
  }

  lemma TokenReadsBack(tokenId: string, certificate: Certificate)
    requires tokenId != ""
    ensures AttributeOf(Norm(BINARY_SECURITY_TOKEN, TokenModel(tokenId, certificate)), WsuId) == Some(tokenId)
    ensures TokenContentOf(Norm(BINARY_SECURITY_TOKEN, TokenModel(tokenId, certificate))) == Holds(certificate)
  {
    var t := TokenModel(tokenId, certificate);
    assert X509_V3 != "";
    NormAttributeSome(BINARY_SECURITY_TOKEN, t, WsuId, tokenId);
    NormAttributeSome(BINARY_SECURITY_TOKEN, t, ValueType, X509_V3);
    NormTextOr(BINARY_SECURITY_TOKEN, t);
  }

  /** The last token is found by its identifier when no earlier one carries it. */
  lemma {:induction false} TokenIsFound(tokens: seq<Model>, tokenId: string, certificate: Certificate)
    requires tokenId != "" && tokens != [] && tokens[|tokens| - 1] == TokenModel(tokenId, certificate)
    requires forall i :: 0 <= i < |tokens| - 1 ==> AttributeOf(tokens[i], WsuId) != Some(tokenId)
    ensures FindToken(NormAll(BINARY_SECURITY_TOKEN, tokens), "#" + tokenId)
         == Some(Norm(BINARY_SECURITY_TOKEN, TokenModel(tokenId, certificate)))
  {
    TokenReadsBack(tokenId, certificate);
    if |tokens| > 1 {
      var first := AttributeOf(Norm(BINARY_SECURITY_TOKEN, tokens[0]), WsuId);
      NormAttributeSome(BINARY_SECURITY_TOKEN, tokens[0], WsuId, tokenId);
      assert first.Some? ==> ("#" + first.value)[1..] == first.value;
      assert ("#" + tokenId)[1..] == tokenId;
      TokenIsFound(tokens[1..], tokenId, certificate);
    }
  }

  lemma SecurityNests()
    ensures Nests(SECURITY, BinarySecurityToken, BINARY_SECURITY_TOKEN)
    ensures Nests(SECURITY, EncryptedKey, ENCRYPTED_KEY)
    ensures Nests(SECURITY, EncryptedData, ENCRYPTED_TYPE)
    ensures Nests(SECURITY, Signature, SIGNATURE)
  {
    FieldHere(SECURITY);
    FieldLater(SECURITY, EncryptedKey);
    FieldHere(SECURITY.rest);
    FieldLater(SECURITY, EncryptedData);
    FieldLater(SECURITY.rest, EncryptedData);
    FieldHere(SECURITY.rest.rest);
    SecurityFields();
  }

  /** A security header, read back. */
  lemma SecurityReadsBack(security: Model, signature: Model, tokens: seq<Model>)
    requires Children(security, Signature) == [signature] && Children(security, BinarySecurityToken) == tokens
    ensures var read := Norm(SECURITY, security);
            && OptionalChild(read, Signature).Some?
            && Child(read, Signature) == Norm(SIGNATURE, signature)
            && Children(read, BinarySecurityToken) == NormAll(BINARY_SECURITY_TOKEN, tokens)
  {
    SecurityNests();
    NormChild(SECURITY, security, Signature);
    NormChildren(SECURITY, security, BinarySecurityToken);
  }

  /** The signing token of a built header is found and holds the signer's certificate. */
  lemma SigningTokenReadsBack(security: Model, ids: References, key: Key, references: seq<Model>, tokens: seq<Model>,
                              certificate: Certificate)
    requires Children(security, Signature) == [SignatureOf(ids, key, references)]
    requires Children(security, BinarySecurityToken) == tokens
    requires ids.signatureTokenId != "" && tokens != []
    requires tokens[|tokens| - 1] == TokenModel(ids.signatureTokenId, certificate)
    requires forall i :: 0 <= i < |tokens| - 1 ==> AttributeOf(tokens[i], WsuId) != Some(ids.signatureTokenId)
    ensures var read := Norm(SECURITY, security);
            var token := SigningToken(read, Norm(SIGNATURE, SignatureOf(ids, key, references)));
            token.Some? && TokenContentOf(token.value) == Holds(certificate)
  {
    SecurityReadsBack(security, SignatureOf(ids, key, references), tokens);
    SignatureReadsBack(ids, key, references);
    TokenIsFound(tokens, ids.signatureTokenId, certificate);
    TokenReadsBack(ids.signatureTokenId, certificate);
  }

  /** The header references, read back from the document they were built into, cover the block and the
      body, and all of them verify. */
  lemma BuiltContentVerifies(security: Model, messaging: Model, ids: References)
    requires AttributeOf(messaging, WsuId) == Some(ids.messagingId) && ids.messagingId != "" && ids.bodyId != ""
    requires DistinctIds(IdAttributes(EnvelopeElement(security, messaging, ids)))
    ensures IndexById(EnvelopeElement(security, messaging, ids)).Ok?
    ensures var index := IndexById(EnvelopeElement(security, messaging, ids)).value;
            var read := NormAll(REFERENCE, HeaderReferences(ids, messaging));
            && |read| == 2
            && Verifies(read[0], index, Dump(MESSAGING, Messaging, messaging))
            && Verifies(read[1], index, Dump(BODY, Body, BodyModel(ids)))
  {
    BuiltReferencesVerify(security, messaging, ids);
    NormEach(REFERENCE, HeaderReferences(ids, messaging));
  }
}
