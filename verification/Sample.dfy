/** One honest exchange written out, so that the theorems about honest settings and about acknowledged
    exchanges speak of something. */
module Sample {
  import opened Terms
  import opened XmlMapping
  import opened Errors
  import opened Messages
  import opened DocumentIdentifier
  import opened Peppol
  import opened Receipts
  import opened Builder
  import opened Exchanges
  import opened HonestMessages
  import opened HonestParse
  import opened Readable
  import opened Identifiers
  import opened Deliveries
  import opened HonestRuns
  import opened Network
  import opened HonestNetwork
  import opened Agreement
  import opened SplitRuns

  // ---------------------------------------------------------------- the parties

  /** The initials of the attributes' values are in alphabetical order. */
  const IDS := References("message", "header", "conversation", "a-token", "b-token", "c-key", "g-signature", "e-info",
                          "f-reference", "j-body", [("attachment", "d-data")])
  const DOCUMENT_TYPE := DocumentId("urn::Invoice", "c", "1")
  const ARGUMENTS := BuilderArgs("0088:1", "0088:2", DOCUMENT_TYPE, "1", "p", "DK")
  const NOW := Plain("now")
  const PAYLOAD := Xml(Element(ForeignTag("Invoice"), [], Plain(""), []))

  function PartyOf(name: string, key: Key): InternalParty {
    InternalParty(PartyIdentity(Plain(name), Some(PARTY_IDENTIFIER_TYPE)), Credentials(Certificate(0, key, true), key))
  }

  function Peer(p: InternalParty): ExternalParty {
    ExternalParty(p.identity, p.credentials.certificate)
  }

  /** A policy that trusts whatever certificate is embedded and asks for full coverage. */
  function TrustingPolicy(): SecurityPolicy {
    SecurityPolicy(true, true,
                   (partyFrom: Model, embedded: Option<Certificate>) =>
                     if embedded.Some? then Trusted(embedded.value) else NotConfigured,
                   {MessagingCovered, BodyCovered, PayloadsCovered}, true, 0, false)
  }

  function ContextOf(key: Key): Context {
    Context(key, TrustingPolicy(), None, (header: Element) => true, (content: Bytes) => 0)
  }

  const BUILD := Build(PAYLOAD, ARGUMENTS, 0, NOW, ("", ""), false)

  // ---------------------------------------------------------------- distinct identifiers

  /** No identifier twice, and initials between `low` and `high`. */
  predicate Between(bag: multiset<string>, low: char, high: char) {
    NoRepetition(bag) && forall id | id in bag :: id != "" && low <= id[0] < high
  }

  lemma One(id: string, low: char, high: char)
    requires id != "" && low <= id[0] < high
    ensures Between(multiset{id}, low, high)
  {
  }

  lemma Both(left: multiset<string>, right: multiset<string>, low: char, middle: char, high: char)
    requires Between(left, low, middle) && Between(right, middle, high) && low <= middle <= high
    ensures Between(left + right, low, high)
  {
    forall id | id in left + right
      ensures (left + right)[id] == 1 && id != "" && low <= id[0] < high
    {
      assert !(id in left && id in right);
    }
  }

  /** One more identifier, with a later initial. */
  lemma Then(bag: multiset<string>, id: string, low: char, middle: char, high: char)
    requires Between(bag, low, middle) && low <= middle <= high && id != "" && middle <= id[0] < high
    ensures Between(bag + multiset{id}, low, high)
  {
    One(id, middle, high);
    Both(bag, multiset{id}, low, middle, high);
  }

  lemma SignatureIdsBetween()
    ensures Between(SignatureIdBag(IDS), 'e', 'h')
  {
    One(IDS.keyInfoId, 'e', 'f');
    Then(multiset{IDS.keyInfoId}, IDS.tokenReferenceId, 'e', 'f', 'g');
    Then(multiset{IDS.keyInfoId} + multiset{IDS.tokenReferenceId}, IDS.signatureId, 'e', 'g', 'h');
  }

  lemma SignalIdsBetween()
    ensures SignalNamed(IDS) && Between(SignalIdBag(IDS), 'b', 'k')
  {
    SignatureIdsBetween();
    One(IDS.signatureTokenId, 'b', 'e');
    Both(multiset{IDS.signatureTokenId}, SignatureIdBag(IDS), 'b', 'e', 'h');
    Then(multiset{IDS.signatureTokenId} + SignatureIdBag(IDS), IDS.messagingId, 'b', 'h', 'i');
    Then(multiset{IDS.signatureTokenId} + SignatureIdBag(IDS) + multiset{IDS.messagingId}, IDS.bodyId, 'b', 'i', 'k');
  }

  lemma SignalIdsAreDistinct()
    ensures DistinctSignalIds(IDS)
  {
    SignalIdsBetween();
  }

  lemma UserIdsAreDistinct()
    ensures DistinctUserIds(IDS)
  {
    SignatureIdsBetween();
    assert IDS.encryptedKeyTokenId[0] == 'a' && IDS.signatureTokenId[0] == 'b';
    One(IDS.encryptedKeyTokenId, 'a', 'b');
    Then(multiset{IDS.encryptedKeyTokenId}, IDS.signatureTokenId, 'a', 'b', 'c');
    var tokens := multiset{IDS.encryptedKeyTokenId} + multiset{IDS.signatureTokenId};
    Then(tokens, IDS.encryptedKeyId, 'a', 'c', 'd');
    Then(tokens + multiset{IDS.encryptedKeyId}, IDS.attachments[0].1, 'a', 'd', 'e');
    Both(tokens + multiset{IDS.encryptedKeyId} + multiset{IDS.attachments[0].1}, SignatureIdBag(IDS), 'a', 'e', 'h');
    Then(UserSecurityIdBag(IDS), IDS.messagingId, 'a', 'h', 'i');
    Then(UserSecurityIdBag(IDS) + multiset{IDS.messagingId}, IDS.bodyId, 'a', 'i', 'k');
  }

  // ---------------------------------------------------------------- tidy values

  lemma {:induction false} NoColonsToFind(s: string)
    requires ':' !in s
    ensures FirstColons(s) == |s|
  {
    if |s| >= 2 {
      NoColonsToFind(s[1..]);
    }
  }

  lemma {:induction false} ColonsAfter(before: string, after: string)
    requires ':' !in before
    ensures FirstColons(before + "::" + after) == |before|
  {
    var s := before + "::" + after;
    if before != "" {
      assert s[0] == before[0] && s[1..] == before[1..] + "::" + after;
      ColonsAfter(before[1..], after);
    }
  }

  lemma DocumentTypeIsSplit(before: string, after: string, d: DocumentId)
    requires d.syntaxSpecificId == before + "::" + after && ':' !in before && ':' !in after
    ensures RootNamespace(d) == before && RootName(d) == Some(after)
  {
    ColonsAfter(before, after);
    NoColonsToFind(after);
    var id := d.syntaxSpecificId;
    assert id[..|before|] == before && id[|before| + 2..] == after && after[..|after|] == after;
  }

  /** A value with no white space at its ends. */
  predicate Ends(s: string) {
    s != "" && !IsSpace(s[0]) && !IsSpace(s[|s| - 1])
  }

  lemma PrintIsTidy(d: DocumentId)
    requires Ends(d.syntaxSpecificId) && Ends(d.version)
    ensures TidyString(Print(d))
  {
    var printed := Print(d);
    assert printed[0] == d.syntaxSpecificId[0] && printed[|printed| - 1] == d.version[|d.version| - 1];
    TidyLiteral(printed);
  }

  predicate PlainArguments(a: BuilderArgs, before: string, after: string) {
    && Ends(a.sender) && Ends(a.recipient) && Ends(a.process) && Ends(a.country) && Ends(a.instanceId)
    && Ends(a.documentType.syntaxSpecificId) && Ends(a.documentType.version) && Ends(before) && Ends(after)
    && a.documentType.syntaxSpecificId == before + "::" + after && ':' !in before && ':' !in after
  }

  lemma ArgumentsAreTidy(a: BuilderArgs, before: string, after: string)
    requires PlainArguments(a, before, after)
    ensures TidyArguments(a) && RootName(a.documentType) == Some(after) && TidyString(after)
  {
    DocumentTypeIsSplit(before, after, a.documentType);
    PrintIsTidy(a.documentType);
    TidyLiteral(a.sender);
    TidyLiteral(a.recipient);
    TidyLiteral(a.process);
    TidyLiteral(a.country);
    TidyLiteral(a.instanceId);
    TidyLiteral(before);
    TidyLiteral(after);
    TidyLiteral(a.documentType.version);
  }

  predicate PlainParty(p: PartyIdentity) {
    p.partyId.Plain? && Ends(p.partyId.chars) && p.partyType == Some(PARTY_IDENTIFIER_TYPE)
  }

  lemma PlainPartyIsPeppol(p: PartyIdentity)
    requires PlainParty(p)
    ensures PeppolParty(p)
  {
    TidyLiteral(p.partyId.chars);
  }

  predicate PlainInput(i: BuildInput) {
    && PlainParty(i.local.identity) && PlainParty(i.remote.identity)
    && Ends(i.ids.messageId) && Ends(i.ids.conversationId) && i.ids.messagingId != "" && |i.ids.attachments| == 1
    && i.now.Plain? && Ends(i.now.chars)
  }

  lemma HeaderIsHonest(i: BuildInput)
    requires TidyArguments(i.arguments) && PlainInput(i)
    ensures HonestHeader(i) && PlainHeader(i)
  {
    PlainPartyIsPeppol(i.local.identity);
    PlainPartyIsPeppol(i.remote.identity);
    TidyLiteral(i.ids.messageId);
    TidyLiteral(i.ids.conversationId);
    TidyLiteral(i.now.chars);
  }

  // ---------------------------------------------------------------- the setting

  function SampleInput(from: Key, to: Key): BuildInput {
    BuildInput(PAYLOAD, PartyOf("A", from), Peer(PartyOf("B", to)), ARGUMENTS, IDS, 0, NOW)
  }

  lemma BuildIsHonest(i: BuildInput, before: string, after: string)
    requires PlainArguments(i.arguments, before, after) && PlainInput(i) && DistinctUserIds(i.ids)
    requires ParseXml(i.payload).Some? && ParseXml(i.payload).value.tag.ForeignTag? && i.remote.certificate.rsa
    requires i.local.credentials.certificate.rsa && i.local.credentials.certificate.key == i.local.credentials.key
    ensures HonestBuild(i) && PlainHeader(i)
  {
    ArgumentsAreTidy(i.arguments, before, after);
    HeaderIsHonest(i);
  }

  lemma ArgumentsArePlain()
    ensures PlainArguments(ARGUMENTS, "urn", "Invoice")
  {
  }

  lemma InputIsPlain(from: Key, to: Key)
    ensures PlainInput(SampleInput(from, to))
  {
  }

  lemma SampleIsHonest(from: Key, to: Key, i: BuildInput)
    requires i == SampleInput(from, to)
    ensures HonestBuild(i) && PlainHeader(i)
  {
    ArgumentsArePlain();
    InputIsPlain(from, to);
    UserIdsAreDistinct();
    BuildIsHonest(i, "urn", "Invoice");
  }

  lemma SampleIsWelcome(from: Key, to: Key)
    requires Buildable(SampleInput(from, to))
    ensures Welcomes(ContextOf(to), SampleInput(from, to))
  {
  }

  lemma SignalIsPrepared(key: Key)
    ensures SignalPrepared(PartyOf("B", key).credentials, IDS, NOW)
  {
    TidyLiteral(IDS.messageId);
    TidyLiteral("now");
  }

  lemma SampleInputIs(from: Key, to: Key)
    ensures InputOf(NewSender(PartyOf("A", from), Peer(PartyOf("B", to)), IDS, None), BUILD) == SampleInput(from, to)
  {
  }

  /** For every two keys, their holders can be in an honest setting. */
  lemma HonestSettingExists(from: Key, to: Key)
    ensures HonestSetting(PartyOf("A", from), Peer(PartyOf("B", to)), IDS, BUILD, PartyOf("B", to), IDS, ContextOf(to),
                          NOW)
  {
    SampleInputIs(from, to);
    SampleIsHonest(from, to, SampleInput(from, to));
    SampleIsWelcome(from, to);
    SignalIsPrepared(to);
    SignalIdsAreDistinct();
  }

  /** Runs in which a message is built, accepted and acknowledged do exist, whichever keys are honest. */
  lemma AcknowledgedRunExists(honest: set<Key>, from: Key, to: Key) returns (actions: seq<Action>)
    ensures DeliveredRun(honest, actions)
    ensures 0 in WorldAfter(actions).senders && WorldAfter(actions).senders[0].state == Acknowledged
    ensures 0 in WorldAfter(actions).receivers && WorldAfter(actions).receivers[0].state == Received
  {
    HonestSettingExists(from, to);
    actions := HonestExchangeIsPossible(honest, [], 0, PartyOf("A", from), Peer(PartyOf("B", to)), IDS,
                                        PartyOf("B", to), IDS,
                                        BUILD, ContextOf(to), NOW);
  }

  // ---------------------------------------------------------------- what an uncovered header does

  const OTHER_IDS := IDS.(messagingId := "z-header")

  lemma RearrangedIdsAreDistinct()
    ensures SignalNamed(IDS) && NoRepetition(SignalIdBag(IDS) + multiset{OTHER_IDS.messagingId})
  {
    SignalIdsBetween();
    Then(SignalIdBag(IDS), OTHER_IDS.messagingId, 'b', 'k', '~');
  }

  /** Runs in which an exchange is acknowledged although its receiver has refused everything do exist. */
  lemma FalselyAcknowledgedRunExists(honest: set<Key>, from: Key, to: Key, refusal: Refusal)
    returns (actions: seq<Action>, a: Issue)
    ensures DeliveredRun(honest, actions) && FalselyAcknowledged(WorldAfter(actions), 0)
    ensures a.IssuedSignal? && Genuine(a) && Answered(a).error.Some?
    ensures WorldAfter(actions).issued == [IssuedMessage(SampleInput(from, to)), a]
  {
    SampleInputIs(from, to);
    SampleIsHonest(from, to, SampleInput(from, to));
    PreparedBuildIsPrepared(SampleInput(from, to));
    SignalIsPrepared(to);
    RearrangedIdsAreDistinct();
    actions, a := UncoveredRunAcknowledges(honest, [], 0, PartyOf("A", from), Peer(PartyOf("B", to)), IDS,
                                           PartyOf("B", to), IDS,
                                           BUILD, ContextOf(to), refusal, NOW, OTHER_IDS, NOW);
  }
}
