/** Reading and verifying a signal, with its loop (as4/core/receipt.py). */
module SignalReader {
  import opened Terms
  import opened XmlMapping
  import opened Schemas
  import opened Documents
  import opened Dsig
  import opened Errors
  import opened Messages
  import opened Receipts
  import opened MessageParser

  /** The reference loop of verify_signature. */
  method VerifySignalDigests(references: seq<Model>, index: map<string, Element>) returns (problem: Option<Problem>)
    ensures problem == SignalDigestProblem(references, index)
  {
    for i := 0 to |references|
      invariant SignalDigestProblem(references, index) == SignalDigestProblem(references[i..], index)
    {
      var r := references[i];
      assert references[i..][0] == r && references[i..][1..] == references[i + 1..];
      var target := Target(r, index);
      if target.None? {
        return Some(NotInDocument(UriOf(r)));
      }
      match ElementDigestMatches(r, target.value) {
        case Matches =>
        case Differs => return Some(DigestDiffers(UriOf(r)));
        case UnsupportedTransform => return Some(NotVerifiable);
        case UnsupportedDigest => return Some(NotVerifiable);
      }
    }
    problem := None;
  }

  /** verify_signature: the token, its certificate, the signature, its coverage, its digests. */
  method VerifySignalSignature(doc: Element, envelope: Model, expected: Certificate)
    returns (problem: Option<SignalFault>)
    ensures problem == SignalProblem(doc, envelope, expected)
  {
    var security := SecurityOf(envelope);
    if OptionalChild(security, Signature).None? {
      return Some(Unproven(NoSignature));
    }
    var signature := Child(security, Signature);
    var token := SigningToken(security, signature);
    if token.None? {
      return Some(Unproven(NoSecurityToken));
    }
    if !TokenContentOf(token.value).Holds? {
      return Some(Unhandled);
    }
    if TokenContentOf(token.value).certificate != expected {
      return Some(Unproven(WrongSigner));
    }
    problem := SignalSignatureProblem(VerifySignature(signature, SignedInfoIn(doc), expected));
    if problem.Some? {
      return;
    }
    var index := IndexElementsById(doc);
    if index.Err? {
      return Some(Unhandled);
    }
    var covered := MessageParser.SignatureCoverage(ReferencesOf(signature), index.value, {});
    if MessagingCovered !in covered {
      return Some(Unproven(MessagingNotCovered));
    }
    var unverified := VerifySignalDigests(ReferencesOf(signature), index.value);
    problem := if unverified.Some? then Some(Unproven(unverified.value)) else None;
  }

  /** AS4Receipt.parse. */
  method ParseSignal(data: Bytes, expected: Certificate) returns (r: Result<Signal, SignalFault>)
    ensures r == ReadSignal(data, expected)
  {
    var doc := ParseXml(data);
    if doc.None? {
      return Err(Unproven(NotReadable));
    }
    var envelope := Load(ENVELOPE, doc.value);
    if envelope.Err? || |SignalMessagesOf(envelope.value)| > 1 {
      return Err(Unproven(NotReadable));
    }
    var signal := Signal(envelope.value, OriginalMessageId(envelope.value));
    if ErrorsOf(signal) == [] && signal.originalMessageId.None? {
      return Err(Unproven(NoRefToMessageId));
    }
    var problem := VerifySignalSignature(doc.value, envelope.value, expected);
    r := if problem.Some? then Err(problem.value) else Ok(signal);
  }
}
