/** XML signatures: references, digests, comparison, verification and construction
    (as4/models/dsig/reference.py, as4/models/dsig/signature.py). */
module Dsig {
  import opened Terms
  import opened XmlMapping
  import opened Schemas

  const EXCLUSIVE_C14N := "http://www.w3.org/2001/10/xml-exc-c14n#"
  const ATTACHMENT_CONTENT_SIGNATURE :=
    "http://docs.oasis-open.org/wss/oasis-wss-SwAProfile-1.1#Attachment-Content-Signature-Transform"
  const SHA256 := "http://www.w3.org/2001/04/xmlenc#sha256"
  const SHA384 := "http://www.w3.org/2001/04/xmldsig-more#sha384"
  const SHA512 := "http://www.w3.org/2001/04/xmlenc#sha512"
  const RSA_SHA256 := "http://www.w3.org/2001/04/xmldsig-more#rsa-sha256"
  const RSA_SHA384 := "http://www.w3.org/2001/04/xmldsig-more#rsa-sha384"
  const RSA_SHA512 := "http://www.w3.org/2001/04/xmldsig-more#rsa-sha512"

  // ---------------------------------------------------------------- references

  /** `reference.uri or ""`. */
  function UriOf(reference: Model): string {
    AttributeOf(reference, Uri).GetOr("")
  }

  predicate IsCid(uri: string) {
    |uri| >= 4 && uri[..4] == "cid:"
  }

  /** `uri.removeprefix("cid:")`. */
  function WithoutCid(uri: string): string {
    if IsCid(uri) then uri[4..] else uri
  }

  /** `uri.removeprefix("#")`. */
  function WithoutHash(uri: string): string {
    if uri != "" && uri[0] == '#' then uri[1..] else uri
  }

  lemma ElementUri(id: string)
    ensures !IsCid("#" + id) && WithoutHash("#" + id) == id
  {
    assert |id| >= 3 ==> ("#" + id)[..4][0] == '#';
    assert ("#" + id)[1..] == id;
  }

  lemma AttachmentUri(id: string)
    ensures IsCid("cid:" + id) && WithoutCid("cid:" + id) == id
  {
    assert ("cid:" + id)[4..] == id;
  }

  function DigestAlgorithmOf(reference: Model): string {
    AttributeOf(Child(reference, DigestMethod), Algorithm).GetOr("")
  }

  function DigestValueOf(reference: Model): Text {
    Trim(TextOf(Child(reference, DigestValue)))
  }

  function TransformsOf(reference: Model): seq<Model> {
    Children(Child(reference, Transforms), Transform)
  }

  lemma TransformsDiffer()
    ensures EXCLUSIVE_C14N != ATTACHMENT_CONTENT_SIGNATURE
  {
    assert |EXCLUSIVE_C14N| != |ATTACHMENT_CONTENT_SIGNATURE|;
  }

  /** At least one transform, and each of them the allowed one. */
  predicate TransformsAllowed(reference: Model, allowed: string) {
    && TransformsOf(reference) != []
    && forall t | t in TransformsOf(reference) :: AttributeOf(t, Algorithm) == Some(allowed)
  }

  predicate DigestSupported(algorithm: string) {
    algorithm == SHA256 || algorithm == SHA384 || algorithm == SHA512
  }

  datatype DigestVerdict = Matches | Differs | UnsupportedTransform | UnsupportedDigest

  /** Transforms are checked before the digest is computed, and the digest algorithm when it is. */
  function DigestMatches(reference: Model, allowed: string, content: Bytes): DigestVerdict {
    if !TransformsAllowed(reference, allowed) then UnsupportedTransform
    else if !DigestSupported(DigestAlgorithmOf(reference)) then UnsupportedDigest
    else if DigestText(DigestAlgorithmOf(reference), content) == DigestValueOf(reference) then Matches
    else Differs
  }

  function ElementDigestMatches(reference: Model, e: Element): DigestVerdict {
    DigestMatches(reference, EXCLUSIVE_C14N, Xml(e))
  }

  function BytesDigestMatches(reference: Model, content: Bytes): DigestVerdict {
    DigestMatches(reference, ATTACHMENT_CONTENT_SIGNATURE, content)
  }

  // ---------------------------------------------------------------- comparison

  /** What a receipt acknowledges. The transform algorithms are compared in sorted order, that is,
      as a bag. */
  datatype Comparable = Comparable(uri: string, transforms: multiset<string>, digestAlgorithm: string,
                                   digestValue: Text)

  function AlgorithmBag(transforms: seq<Model>): multiset<string> {
    if transforms == [] then multiset{}
    else
      var a := AttributeOf(transforms[0], Algorithm).GetOr("");
      (if a != "" then multiset{a} else multiset{}) + AlgorithmBag(transforms[1..])
  }

  function ComparableOf(reference: Model): Comparable {
    Comparable(UriOf(reference), AlgorithmBag(TransformsOf(reference)), DigestAlgorithmOf(reference),
               DigestValueOf(reference))
  }

  function Comparables(references: seq<Model>): (r: seq<Comparable>)
    ensures |r| == |references|
    ensures forall i :: 0 <= i < |r| ==> r[i] == ComparableOf(references[i])
  {
    seq(|references|, i requires 0 <= i < |references| => ComparableOf(references[i]))
  }

  // ---------------------------------------------------------------- signatures

  function ReferencesOf(signature: Model): seq<Model> {
    Children(Child(signature, SignedInfo), Reference)
  }

  predicate SignatureAlgorithmSupported(algorithm: string) {
    algorithm == RSA_SHA256 || algorithm == RSA_SHA384 || algorithm == RSA_SHA512
  }

  datatype SignatureVerdict =
    Verified | NotVerified | UnsupportedCanonicalization | UnsupportedSignature | NoSignatureBytes

  function SignatureAlgorithmOf(signature: Model): string {
    AttributeOf(Child(Child(signature, SignedInfo), SignatureMethod), Algorithm).GetOr("")
  }

  /** `signedInfo` is the element that the signature's SignedInfo was loaded from. */
  function VerifySignature(signature: Model, signedInfo: Element, certificate: Certificate): SignatureVerdict {
    if AttributeOf(Child(Child(signature, SignedInfo), CanonicalizationMethod), Algorithm) != Some(EXCLUSIVE_C14N) then
      UnsupportedCanonicalization
    else if !SignatureAlgorithmSupported(SignatureAlgorithmOf(signature)) then UnsupportedSignature
    else if !certificate.rsa then UnsupportedSignature
    else if Child(signature, SignatureValue).text.None? then NoSignatureBytes
    else if TextOf(Child(signature, SignatureValue))
              == SignatureText(certificate.key, SignatureAlgorithmOf(signature), Xml(signedInfo)) then Verified
    else NotVerified
  }

  // ---------------------------------------------------------------- construction

  function TextModel(t: Text): Model {
    Model(map[], Some(t), map[])
  }

  function AlgorithmModel(algorithm: string): Model {
    Model(map[Algorithm := algorithm], None, map[])
  }

  function ReferenceModel(uri: string, transform: string, content: Bytes): Model {
    Model(
      map[Uri := uri],
      None,
      map[Transforms := [Model(map[], None, map[Transform := [AlgorithmModel(transform)]])],
          DigestMethod := [AlgorithmModel(SHA256)],
          DigestValue := [TextModel(DigestText(SHA256, content))]])
  }

  /** Reference.for_element with SHA-256, which is what both builders ask for. */
  function ElementReference(id: string, e: Element): Model {
    ReferenceModel("#" + id, EXCLUSIVE_C14N, Xml(e))
  }

  /** Reference.for_bytes with SHA-256 and the attachment content transform. */
  function AttachmentReference(attachmentId: string, content: Bytes): Model {
    ReferenceModel("cid:" + attachmentId, ATTACHMENT_CONTENT_SIGNATURE, content)
  }

  function SignedInfoModel(references: seq<Model>): Model {
    Model(
      map[],
      None,
      map[CanonicalizationMethod := [AlgorithmModel(EXCLUSIVE_C14N)],
          SignatureMethod := [AlgorithmModel(RSA_SHA256)],
          Reference := references])
  }

  function SignedInfoElement(references: seq<Model>): Element {
    Dump(SIGNED_INFO, SignedInfo, SignedInfoModel(references))
  }

  /** The text a private key puts into SignatureValue. */
  function Signed(key: Key, references: seq<Model>): Text {
    SignatureText(key, RSA_SHA256, Xml(SignedInfoElement(references)))
  }

  function TokenReferenceModel(uri: string): Model {
    Model(map[Uri := uri, ValueType := X509_V3], None, map[])
  }

  const X509_V3 := "http://docs.oasis-open.org/wss/2004/01/oasis-200401-wss-x509-token-profile-1.0#X509v3"
  const BASE64_BINARY :=
    "http://docs.oasis-open.org/wss/2004/01/oasis-200401-wss-soap-message-security-1.0#Base64Binary"

  function SignatureModel(signatureId: string, keyInfoId: string, tokenReferenceId: string, tokenId: string, key: Key,
                          references: seq<Model>): Model
  {
    Model(
      map[PlainId := signatureId],
      None,
      map[SignedInfo := [SignedInfoModel(references)],
          SignatureValue := [TextModel(Signed(key, references))],
          KeyInfo := [Model(map[PlainId := keyInfoId], None, map[
                        SecurityTokenReference := [Model(map[WsuId := tokenReferenceId], None, map[
                                                     TokenReference := [TokenReferenceModel("#" + tokenId)]])]])]])
  }

  function TokenModel(tokenId: string, certificate: Certificate): Model {
    Model(
      map[EncodingType := BASE64_BINARY, ValueType := X509_V3, WsuId := tokenId],
      Some(TokenText(certificate)),
      map[])
  }

  // ---------------------------------------------------------------- what comparison and digests mean

  /** How many of the transforms name this algorithm. */
  function Naming(transforms: seq<Model>, algorithm: string): nat {
    if transforms == [] then 0
    else
      (if AttributeOf(transforms[0], Algorithm) == Some(algorithm) then 1 else 0) + Naming(transforms[1..], algorithm)
  }

  lemma {:induction false} BagCountsAlgorithms(transforms: seq<Model>, algorithm: string)
    ensures AlgorithmBag(transforms)[algorithm] == if algorithm == "" then 0 else Naming(transforms, algorithm)
  {
    if transforms != [] {
      BagCountsAlgorithms(transforms[1..], algorithm);
    }
  }

  ghost predicate SameAlgorithms(xs: seq<Model>, ys: seq<Model>) {
    forall a: string :: a != "" ==> Naming(xs, a) == Naming(ys, a)
  }

  lemma SameBags(xs: seq<Model>, ys: seq<Model>)
    ensures AlgorithmBag(xs) == AlgorithmBag(ys) <==> SameAlgorithms(xs, ys)
  {
    forall a: string
      ensures AlgorithmBag(xs)[a] == if a == "" then 0 else Naming(xs, a)
      ensures AlgorithmBag(ys)[a] == if a == "" then 0 else Naming(ys, a)
    {
      BagCountsAlgorithms(xs, a);
      BagCountsAlgorithms(ys, a);
    }
    if SameAlgorithms(xs, ys) {
      assert forall a :: AlgorithmBag(xs)[a] == AlgorithmBag(ys)[a];
    }
  }

  /** Two references compare equal exactly when they name the same URI, digest algorithm and digest value, and
      each transform algorithm equally often, in whatever order. */
  lemma ComparisonIsExact(r: Model, s: Model)
    ensures ComparableOf(r) == ComparableOf(s)
       <==> && AttributeOf(r, Uri).GetOr("") == AttributeOf(s, Uri).GetOr("")
            && AttributeOf(Child(r, DigestMethod), Algorithm).GetOr("")
               == AttributeOf(Child(s, DigestMethod), Algorithm).GetOr("")
            && Trim(TextOf(Child(r, DigestValue))) == Trim(TextOf(Child(s, DigestValue)))
            && SameAlgorithms(Children(Child(r, Transforms), Transform), Children(Child(s, Transforms), Transform))
  {
    SameBags(TransformsOf(r), TransformsOf(s));
  }

  /** A digest verifies for exactly the content it was computed from. */
  lemma BuiltDigestMatches(uri: string, transform: string, built: Bytes, content: Bytes)
    ensures DigestMatches(ReferenceModel(uri, transform, built), transform, content)
         == if built == content then Matches else Differs
  {
    var r := ReferenceModel(uri, transform, built);
    assert TransformsOf(r) == [AlgorithmModel(transform)];
    assert DigestAlgorithmOf(r) == SHA256;
  }

  /** Two references that compare equal and both verify cover the same content. */
  lemma EqualReferencesAgree(r: Model, s: Model, allowed: string, a: Bytes, b: Bytes)
    requires DigestMatches(r, allowed, a) == Matches && DigestMatches(s, allowed, b) == Matches
    requires ComparableOf(r) == ComparableOf(s)
    ensures a == b
  {
  }

  lemma {:induction false} BagSurvivesDump(transforms: seq<Model>)
    ensures AlgorithmBag(NormAll(TRANSFORM, transforms)) == AlgorithmBag(transforms)
  {
    if transforms != [] {
      NormAttributeOr(TRANSFORM, transforms[0], Algorithm);
      BagSurvivesDump(transforms[1..]);
    }
  }

  lemma UriSurvivesDump(reference: Model)
    ensures UriOf(Norm(REFERENCE, reference)) == UriOf(reference)
  {
    NormAttributeOr(REFERENCE, reference, Uri);
  }

  lemma TransformsSurviveDump(reference: Model)
    ensures AlgorithmBag(TransformsOf(Norm(REFERENCE, reference))) == AlgorithmBag(TransformsOf(reference))
  {
    NormChild(REFERENCE, reference, Transforms);
    NormChildren(TRANSFORMS, Child(reference, Transforms), Transform);
    BagSurvivesDump(TransformsOf(reference));
  }

  lemma DigestAlgorithmSurvivesDump(reference: Model)
    ensures DigestAlgorithmOf(Norm(REFERENCE, reference)) == DigestAlgorithmOf(reference)
  {
    NormChildAttribute(REFERENCE, reference, DigestMethod, Algorithm);
  }

  lemma DigestValueSurvivesDump(reference: Model)
    ensures DigestValueOf(Norm(REFERENCE, reference)) == DigestValueOf(reference)
  {
    NormChildText(REFERENCE, reference, DigestValue);
    TrimIsIdempotent(TextOf(Child(reference, DigestValue)));
  }

  /** Neither dumping nor parsing changes what a reference compares as. */
  lemma ComparableSurvivesDump(reference: Model)
    ensures ComparableOf(Norm(REFERENCE, reference)) == ComparableOf(reference)
  {
    UriSurvivesDump(reference);
    TransformsSurviveDump(reference);
    DigestAlgorithmSurvivesDump(reference);
    DigestValueSurvivesDump(reference);
  }
}
