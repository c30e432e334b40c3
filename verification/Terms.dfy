/** The symbolic world the protocol runs in: XML trees, octet strings and the texts
    that carry cryptographic values.

    Digests, signatures, wrapped keys, ciphertexts and gzip streams are constructor
    terms. A term records exactly what it was computed from, so the injectivity that
    the library expects of its cryptography holds by construction. */
module Terms {

  datatype Option<+T> = None | Some(value: T) {
    function GetOr(fallback: T): T {
      if Some? then value else fallback
    }
  }

  datatype Result<+T, +E> = Ok(value: T) | Err(error: E) {
    predicate IsFailure() {
      Err?
    }

    function PropagateFailure<U>(): Result<U, E>
      requires Err?
    {
      Err(error)
    }

    function Extract(): T
      requires Ok?
    {
      value
    }
  }

  /** A key pair, named by its public half. */
  type Key = nat

  type SessionKey = nat

  /** `rsa` says whether the subject public key is an RSA key. */
  datatype Certificate = Certificate(serial: nat, key: Key, rsa: bool)

  /** Character content of an element. `Plain` is ordinary text; the other constructors are the
      base64 text of a cryptographic value. */
  datatype Text =
    | Plain(chars: string)
    | DigestText(algorithm: string, content: Bytes)
    | SignatureText(signer: Key, algorithm: string, content: Bytes)
    | TokenText(certificate: Certificate)
    | WrappedKeyText(recipient: Key, session: SessionKey)

  /** `Xml(e)` is the serialisation of `e`; exclusive canonicalisation is a function of the
      subtree, so it is the same term. `Sealed` is an AES-GCM ciphertext with its nonce. */
  datatype Bytes =
    | Octets(data: string)
    | Xml(root: Element)
    | Gzip(content: Bytes)
    | Sealed(key: SessionKey, content: Bytes)

  datatype Attribute = Attribute(name: AttributeName, value: string)

  /** An element without tail text, comments or processing instructions. */
  datatype Element = Element(tag: Tag, attributes: seq<Attribute>, text: Text, children: seq<Element>)

  /** Qualified element names: those the schemas declare, and every other clark name. */
  datatype Tag =
    | Envelope | Header | Body
    | Security | BinarySecurityToken | SecurityTokenReference | TokenReference
    | EncryptedKey | EncryptedData | EncryptionMethod | Mgf | CipherData | CipherValue | CipherReference
    | CipherTransforms | ReferenceList | DataReference
    | Signature | SignedInfo | CanonicalizationMethod | SignatureMethod | Reference | Transforms | Transform
    | DigestMethod | DigestValue | SignatureValue | KeyInfo
    | Messaging | UserMessage | SignalMessage | PullRequest | MessageInfo | Timestamp | MessageId | RefToMessageId
    | PartyInfo | From | To | PartyId | Role
    | CollaborationInfo | AgreementRef | Service | Action | ConversationId
    | MessageProperties | Property | PayloadInfo | PartInfo | PartSchema | PartProperties
    | Receipt | NonRepudiationInformation | MessagePartNRInformation | Error | Description | ErrorDetail
    | StandardBusinessDocument | StandardBusinessDocumentHeader | HeaderVersion | Sender | Receiver | Identifier
    | DocumentIdentification | Standard | TypeVersion | InstanceIdentifier | SbdhType | CreationDateAndTime
    | BusinessScope | Scope
    | ForeignTag(clarkName: string)

  /** Qualified attribute names. The first three have local name `Id`. */
  datatype AttributeName =
    | WsuId | PlainId | ForeignId(clarkName: string)
    | Uri | Algorithm | ValueType | EncodingType | TokenType | Usage | TypeName | DsigType | Name | Href | MimeType
    | Encoding | MustUnderstand | Category | ErrorCode | Severity | RefToMessageInError | ShortDescription
    | Authority | Mpc | Pmode | Lang | Origin | Location | Version | Namespace
    | ForeignName(clarkName: string)

  /** The attributes whose local name is `Id`. */
  predicate NamesAnId(name: AttributeName) {
    name.WsuId? || name.PlainId? || name.ForeignId?
  }

  /** The characters that Python's `strip` removes. */
  predicate IsSpace(c: char) {
    || '\t' <= c <= '\r'
    || '\U{1c}' <= c <= ' '
    || c in {'\U{85}', '\U{a0}', '\U{1680}', '\U{2028}', '\U{2029}', '\U{202f}', '\U{205f}', '\U{3000}'}
    || '\U{2000}' <= c <= '\U{200a}'
  }

  function TrimLeft(s: string): (r: string)
    ensures |r| <= |s|
    ensures r != "" ==> !IsSpace(r[0])
    ensures r != "" ==> s != "" && r[|r| - 1] == s[|s| - 1]
  {
    if s != "" && IsSpace(s[0]) then TrimLeft(s[1..]) else s
  }

  function TrimRight(s: string): (r: string)
    ensures |r| <= |s|
    ensures r != "" ==> !IsSpace(r[|r| - 1]) && r[0] == s[0]
  {
    if s != "" && IsSpace(s[|s| - 1]) then TrimRight(s[..|s| - 1]) else s
  }

  /** Python's `strip`: base64 texts carry no surrounding white space. */
  function Trim(t: Text): Text {
    if t.Plain? then Plain(TrimRight(TrimLeft(t.chars))) else t
  }

  lemma TrimIsIdempotent(t: Text)
    ensures Trim(Trim(t)) == Trim(t)
  {
  }

  lemma TrimKeeps(s: string)
    requires s == "" || (!IsSpace(s[0]) && !IsSpace(s[|s| - 1]))
    ensures Trim(Plain(s)) == Plain(s)
  {
  }

  predicate AllSpace(s: string) {
    forall c | c in s :: IsSpace(c)
  }

  lemma {:induction false} LeftIsStripped(s: string) returns (before: string)
    ensures s == before + TrimLeft(s) && AllSpace(before)
  {
    if s != "" && IsSpace(s[0]) {
      var rest := LeftIsStripped(s[1..]);
      before := [s[0]] + rest;
    } else {
      before := "";
    }
  }

  lemma {:induction false} RightIsStripped(s: string) returns (after: string)
    ensures s == TrimRight(s) + after && AllSpace(after)
  {
    if s != "" && IsSpace(s[|s| - 1]) {
      var rest := RightIsStripped(s[..|s| - 1]);
      after := rest + [s[|s| - 1]];
    } else {
      after := "";
    }
  }

  /** What is stripped is white space, and what is left has none at its ends. */
  lemma StripIsExact(s: string) returns (before: string, after: string)
    ensures Trim(Plain(s)).Plain? && AllSpace(before) && AllSpace(after)
    ensures s == before + Trim(Plain(s)).chars + after
    ensures var left := Trim(Plain(s)).chars; left != "" ==> !IsSpace(left[0]) && !IsSpace(left[|left| - 1])
  {
    before := LeftIsStripped(s);
    after := RightIsStripped(TrimLeft(s));
  }

  /** Visible ASCII is not white space; blanks, tabs and line ends are. */
  lemma SpacesAreExact()
    ensures forall c | '!' <= c <= '~' :: !IsSpace(c)
    ensures forall c | c in {' ', '\t', '\n', '\r', '\U{0b}', '\U{0c}', '\U{1c}', '\U{1d}', '\U{1e}', '\U{1f}'} ::
              IsSpace(c)
    ensures IsSpace('\U{85}') && IsSpace('\U{a0}') && IsSpace('\U{3000}') && !IsSpace('\U{200b}')
    ensures !IsSpace('\U{feff}')
  {
  }

  predicate Blank(t: Text) {
    Trim(t) == Plain("")
  }

  /** Text that neither stripping nor the blank test changes. */
  predicate Tidy(t: Text) {
    Trim(t) == t && t != Plain("")
  }

  /** Parsing recovers the tree; every other octet string is not well-formed XML. */
  function ParseXml(b: Bytes): Option<Element> {
    if b.Xml? then Some(b.root) else None
  }

  /** The whole decompressed stream, when the bytes are a gzip stream. */
  function Gunzip(b: Bytes): Option<Bytes> {
    if b.Gzip? then Some(b.content) else None
  }

  /** RSA-OAEP decryption of a wrapped session key. */
  function Unwrap(recipient: Key, t: Text): Option<SessionKey> {
    if t.WrappedKeyText? && t.recipient == recipient then Some(t.session) else None
  }

  /** AES-GCM decryption: authenticated, so a wrong key or a changed ciphertext opens nothing. */
  function Open(key: SessionKey, b: Bytes): Option<Bytes> {
    if b.Sealed? && b.key == key then Some(b.content) else None
  }

  lemma ConcatAssociates<T>(a: seq<T>, b: seq<T>, c: seq<T>)
    ensures a + (b + c) == (a + b) + c
  {
  }
}
