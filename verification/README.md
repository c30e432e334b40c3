# AS4 One-Way/Push, verified

A Dafny 4.11 model of an AS4 library (ebMS 3.0 user messages, signals, the Peppol profile), with proofs
of what its protocol promises. XML trees are modelled as trees; digests, signatures, wrapped keys,
ciphertexts and gzip streams are constructor terms (`Terms.dfy`), so a term is equal to another exactly
when it was computed from the same things. Everything else follows the code: the schema-driven XML
mapping, the staged parse, the signals, the exchanges, certificate paths and the document identifier.

The main results:

- **Agreement** (`Network.AcknowledgedMeansDelivered`). In every run of any number of exchanges, over a
  network that drops, replays and alters documents and can copy but not make signatures of honest keys, with
  receivers that may be handed anything at all: when the signal that acknowledged a sending exchange covers
  its own header, a holder of the expected key accepted, under a verified signer, a message with the same set
  of signed references, which holds the header block, the body and the attachment bytes that were built. The
  accepted header is the built one exactly when its signature covers it, and then so are the identifier, the
  payload and, if the signed attachment is the first, the routing fields. Reference by reference this holds
  for every exchange, also with an explicit requirement or without a build
  (`Network.AcknowledgedReferencesAreHeld`); the signer, when honest, is the sender, unless two keys used one
  message identifier (`Network.SignerIsTheSender`). The code does not check that a signature covers the header,
  and for the signal agreement is false without it (below).
- **Agreement, seen from the receiver** (`Network.ReceivedMeansBuilt`). In every run where receivers, too, are
  handed only what the network can put together, a message received under an honest signer's signature carries
  the references of one use of that signer's key; exactly when they cover the header it holds the header block
  of that use, and then the identifier, payload and routing fields that were built.
- **Both are about something.** From every reachable world, two honest parties can run an exchange over that
  network that ends in ACKNOWLEDGED and RECEIVED (`HonestNetwork.HonestExchangeIsPossible`), and for any two
  keys there are such parties (`Sample.HonestSettingExists`).
- **Honest runs complete, exactly** (`AcceptedBuilds.HonestRunIsExact`). For input with trimmed header values,
  Peppol parties, an RSA key pair and distinct identifiers, and a receiver that trusts the sender: build, receive
  and read the answer reach RECEIVED on one side and ACKNOWLEDGED on the other, with the built content, exactly
  when the attachment map has one entry and the payload is not itself a routing header.
- **Every answer is readable** (`Answers.AnswerIsReadableExactly`), exactly when the message is answerable —
  its identifier is absent (from an error only) or not blank, the error has a code and a detail, the
  acknowledged references survive a dump — and no identifier that the answer copies repeats another.
- **Every outcome is told twice** (`ParseJudgements.ParseIsJudged`). For every policy, key, acceptor, document and
  attachments, the outcome of `parse` is a list of conditions written out stage by stage: nothing is wrong
  exactly when the message is accepted; otherwise the stored answer carries the literal code of the first
  thing that is (`Answers.AnswerSaysWhy`), or the acceptor's own verdict (`ParseJudgements.AcceptorDecides`), or an
  exception escapes. The same is stated for reading signals (`SignalJudgements.ReadingIsExact`) and for
  `build`, `receive_signal` and `receive` (`Exchanges.BuildOutcome`, `SignalOutcome`, `ReceiveOutcome`).
- **What is built is said** (`BuiltContent.BuiltMessageSays`, `SignalEnvelopeSays`). Every value of a built
  message or signal, with its literal constants; an honest receiver reads them in the header block and in the
  routing header (`AcceptedBuilds.HonestMessageSays`).
- **Sound acceptance, staged results, the order of the routing hook** (`Acceptance`), the **sending-side
  invariant** over every sequence of events (`Exchanges`), **certificate paths** (`Trust`), the **XML round
  trip** (`XmlMapping`, `Completeness`) and the **document identifier** (`DocumentIdentifier`).

Five claims that one would like to make are false of the code; each has its failing inputs and its exact
condition here:

- A signature that covers a Messaging element need not cover the header. The code looks the covered elements
  up by tag in the index of identifiers and never compares one with `Header/Messaging`. A document with
  another block in its header, and the signed one below an undeclared child, is read: an exchange is
  acknowledged by the refusal of another message (`SplitDocuments.UncoveredHeaderAcknowledges`), and a message
  is accepted under an identifier that its signer never built (`SplitDocuments.UncoveredHeaderIsAccepted`);
  every run can be extended by such an exchange, whose receiver has refused all that it was handed
  (`SplitRuns.UncoveredRunAcknowledges`).
  For what is read or accepted under an honest signer, the header holds the issued block exactly when some
  signature reference resolves to `Header/Messaging` (`Agreement.ReadSignalIsExact`,
  `Agreement.AcceptedIsExact`), a lookup that a caller can make.
- What `build` builds is not always accepted. A second entry of the attachment map is declared and encrypted
  for, but nothing is attached for it; and a payload that is itself a StandardBusinessDocumentHeader stands
  beside the built one, where only one may be. No receiver accepts either
  (`AcceptedBuilds.AcceptedBuildIsSingle`); the second ends REJECTED on both sides
  (`AcceptedBuilds.RoutingPayloadIsRejected`). All other honest input is accepted
  (`AcceptedBuilds.HonestBuildIsAcceptedExactly`).
- An error signal for a message whose identifier is white space only cannot be parsed by its sender
  (`Answers.RefusalIsReadable`, and `Answers.BlankIdIsAnsweredUnreadably` for one): the raw identifier is
  copied into `RefToMessageId`, where the mapping strips it and then misses it.
- The greedy path search can miss a chain when a certificate has two able issuers
  (`Trust.GreedySearchMissesAChain`). It finds a path, whatever the order of the intermediates, exactly when no
  path that it could follow is stuck: at the depth bound, or at a certificate without an unused issuer
  (`Trust.EveryOrderFindsAPath`). Where issuers are unique it finds one exactly when a chain within the depth
  exists (`Trust.PathIsComplete`).
- Parsing a printed document identifier does not return every triple
  (`DocumentIdentifier.VersionWithColonsIsNotRecovered`): it does exactly when no rival separator exists
  (`DocumentIdentifier.ParseUndoesPrint`).

The docstring of `receive_signal` says that receipt and state are recorded before an unproven signal
raises. The code records them only for a receipt that non-repudiation refuses; every other raise leaves the
exchange unchanged, and the model follows the code (`Exchanges.RaisedSignalChangesNothing`).

## Layout

`Terms`, `XmlMapping`, `Completeness`, `Schemas` — the symbolic world, the mapping, and the model classes as
data. `Documents`, `Dsig`, `Errors`, `Messages`, `Peppol`, `Receipts`, `Builder`, `Exchanges` — what each
operation computes, as functions. `Judgements`, `ParseJudgements`, `SignalJudgements`, `BuiltContent` — the same
outcomes and contents, with conditions, codes and constants written out. `MessageParser`, `SignalReader`, `ExchangeObjects` — the loops, the field
dictionary and the exchange objects as methods and classes, each proved equal to its function. `Acceptance`,
`Authenticity`, `Agreement`, `Routing`, `Network` — soundness, and `SplitDocuments`, `SplitRuns` — where it fails.
`Envelopes`, `Construction`, `Readable`, `Answers`, `Identifiers`, `Deliveries`, `Honest*`, `AcceptedBuilds`,
`Sample` — completeness. `Trust`, `DocumentIdentifier`, `StoredErrors` stand alone.

The exchange state FAILED is called `Unacknowledged`.

## Model

| member | source | states |
|---|---|---|
| Network.AcknowledgedMeansDelivered | as4/core/exchange.py:132-197 | in every run, ACKNOWLEDGED by a signal that covers its header, with no explicit requirement, means that a holder of the expected key accepted, under a verified signer, a message with the same signed references that holds each built block and the attachment bytes; its header is the built one exactly when covered, and then id, payload and (first attachment signed) routing fields are |
| Network.AcknowledgedReferencesAreHeld | as4/core/exchange.py:132-197 | the same for whatever is required and whether or not a message was built: each acknowledged built reference means that the accepted message holds the built header block, body or attachment bytes; without a build the accepted message has no signed reference |
| Network.SignerIsTheSender | as4/core/exchange.py:165-197 | when no message id is used under two keys, the signer that the accepting receiver verified, if honest and if the accepted header is covered, is the sender |
| Network.RecordedSignalIsExact | as4/core/exchange.py:132-153 | in every run the signal that an exchange has recorded under an honest key was signed for an answer of that key, and its header holds that answer exactly when some signature reference resolves to it |
| Network.OutcomeIsAnswered | as4/core/exchange.py:132-153 | in every run, by a recorded signal that covers its header, ACKNOWLEDGED means the expected party accepted this message with references between the required and the sent ones, REJECTED that it refused it with the error code the signal carries |
| Network.ReceivedMeansBuilt | as4/core/exchange.py:165-197 | in every run, a receiver in RECEIVED whose message verified under an honest signer holds the references of one use of that key; its header holds the block of that use exactly when covered, and then id, payload and (first attachment signed) routing fields are the built ones |
| HonestNetwork.HonestExchangeIsPossible | as4/core/exchange.py:110-197 | from every reachable world an honest exchange can run over the network to ACKNOWLEDGED, by a signal that covers its header, and RECEIVED as built |
| Sample.HonestSettingExists | as4/core/exchange.py:110-197 | for any two keys there are parties, identifiers, arguments, payload and policy that meet every condition of an honest exchange |
| Sample.AcknowledgedRunExists | as4/core/exchange.py:110-197 | there are runs, whichever keys are honest, that end in ACKNOWLEDGED and RECEIVED |
| Sample.FalselyAcknowledgedRunExists | as4/core/exchange.py:132-153 | there are runs, whichever keys are honest, with one built message and one refusal, that end in ACKNOWLEDGED and REJECTED |
| Network.EveryRunKeepsInvariant | as4/core/exchange.py:110-202 | every interleaving of exchanges and network steps keeps: stored messages were built, recorded signals were read from what the network could put together, states are backed by the recorded signal |
| Agreement.ReadSignalIsExact | as4/core/receipt.py:78-155 | a signal read under an honest certificate was signed for one answer, and its header holds that answer's block exactly when some signature reference resolves to the header's block |
| Agreement.AcceptedIsExact | as4/core/message.py:147-190 | a message accepted under an honest signature carries the references of one signing, and its header holds the signed block exactly when some reference resolves to it; a signal's signature cannot be passed off as a message's then |
| Agreement.AcknowledgedHeaderIsExact | as4/core/message.py:171-190 | an accepted message whose references were all built, the header's among them, has the built header block exactly when some reference resolves to it |
| Agreement.SignalWasIssued | as4/core/receipt.py:78-155 | the signature of a signal that was read was issued for a signal with those references; no message's signature can be passed off as it |
| SplitDocuments.SplitSignalIsRead | as4/core/receipt.py:139-155 | a signed answer to one message can be rearranged so that it is read as the answer to any other answerable message, with the header uncovered |
| SplitDocuments.UncoveredHeaderAcknowledges | as4/core/exchange.py:132-153 | a signed refusal of any message can be rearranged so that an exchange that reads it is ACKNOWLEDGED |
| SplitRuns.UncoveredRunAcknowledges | as4/core/exchange.py:110-197 | every run can be extended by an exchange that ends ACKNOWLEDGED although the only answer given in it is a refusal |
| SplitDocuments.SplitSignalIsDeliverable | as4/core/receipt.py:139-155 | that document holds no signature that was not issued |
| SplitDocuments.UncoveredHeaderIsAccepted | as4/core/message.py:171-190 | a signed message can be rearranged so that it is accepted under an id that its signer did not build |
| SplitDocuments.SplitMessageIsDeliverable | as4/core/message.py:171-190 | that document holds no signature that was not issued |
| Agreement.AcknowledgedContentIsHeld | as4/core/message.py:416-460 | an accepted message whose signed references were all built holds what each of them was built over, and was signed by a resolved signer |
| Agreement.AcknowledgedContentIsExact | as4/core/message.py:416-460 | an accepted message whose signed references are the built ones holds the built blocks and attachment bytes; its header is the built one exactly when covered, and then id, header block and payload are |
| Agreement.AcknowledgedContentAgrees | as4/core/message.py:416-460 | its case of a covered header |
| Routing.AcceptedIsRoutedBy | as4/profiles/peppol/message.py:148-197 | the routing fields of every accepted message are those of the routing header in its first attachment |
| Routing.AgreedRoutes | as4/profiles/peppol/message.py:148-197 | they are what the builder was given, stripped, when the message agrees with a build whose attachment comes first |
| Routing.FirstAttachmentRoutes | as4/profiles/peppol/message.py:148-197 | otherwise they are those of whatever document comes first, as long as it names the participants of the header block |
| Agreement.AcceptedWasBuilt | as4/core/message.py:147-169 | an accepted message under an honest signature carries the references of one use of that key; its header holds the block of that use exactly when covered, and then id, header block and payload are those of one build |
| Deliveries.BuiltDocumentHasOneMessaging | as4/core/message.py:67-70 | in a built document every Messaging element is the header's |
| Envelopes.OneMessagingIsCovered | as4/core/message.py:171-190 | a document whose Messaging elements all equal the header's covers its header whenever it covers a Messaging element |
| Agreement.BuiltMessageIdIsFound | as4/core/message.py:118-139 | the raw identifier of a document with a built header block is the built one |
| Authenticity.GenuineSignalAnswers | as4/core/receipt.py:78-100 | reading back a built messaging block gives the answered message's error code or its references, and its id |
| Authenticity.CoveredMessagingIsSigned | as4/core/receipt.py:139-155 | among verified built references, one resolves to an element tagged Messaging exactly when that element is the signed block |
| Exchanges.EveryRunKeepsInvariant | as4/core/exchange.py:110-153 | after any sequence of build, mark_sent, receive_signal and restore: ACKNOWLEDGED, REJECTED and FAILED are backed by the recorded signal, its id, references and errors |
| Exchanges.SignalOutcome | as4/core/exchange.py:132-153 | the state and the exception for every signal: unreadable or for another message, nothing changes and it raises; an error rejects; a receipt acknowledges exactly when acknowledged is within sent, required within acknowledged and an explicit requirement non-empty, and otherwise ends FAILED and raises |
| Exchanges.BuildOutcome | as4/core/exchange.py:110-126 | the state and the exception for every build: which inputs raise before anything is assigned, and what is stored otherwise |
| Exchanges.ReceiveOutcome | as4/core/exchange.py:165-197 | the state after every request: escaping exceptions leave it alone, every message is stored with its ids and signed references and RECEIVED or REJECTED |
| Exchanges.FreshAndSent | as4/core/exchange.py:85-130 | a new exchange is CREATED and holds nothing but its identifiers; mark_sent makes it SENT and nothing else |
| Exchanges.RaisedSignalChangesNothing | as4/core/exchange.py:132-153 | a raise of receive_signal changes nothing unless non-repudiation refused the receipt, and then only state and receipt |
| Exchanges.RaisedBuildKeepsTheExchange | as4/core/exchange.py:110-126 | a build that raises leaves everything alone but the attachment map |
| Exchanges.RestoresAreInvisible | as4/core/exchange.py:76-94 | removing every dump and restore, under the exchange's own party or refused under another, from any sequence of events leaves the same exchange |
| Exchanges.RestoreUndoesStore | as4/core/exchange.py:76-94 | what is stored is restored exactly under a party with the stored identifier, refused under every other, and does not hold the credentials |
| ExchangeObjects.SendingExchange.constructor | as4/core/exchange.py:85-94 | a fresh exchange takes its message ids from its identifiers |
| ExchangeObjects.Restore | as4/core/exchange.py:76-94 | a new object with the stored state under the supplied party, empty ids defaulted again; a mismatched party is refused and no object made |
| ExchangeObjects.SendingExchange.Build | as4/core/exchange.py:110-126 | the whole new state after a build, successful or not, and the wire data |
| ExchangeObjects.SendingExchange.MarkSent | as4/core/exchange.py:128-130 | the state becomes SENT and nothing else changes |
| ExchangeObjects.SendingExchange.ReceiveSignal | as4/core/exchange.py:132-153 | the whole new state and the exception for every signal |
| ExchangeObjects.ReceivingExchange.ReceiveMessage | as4/core/exchange.py:180-197 | the whole new state: message, ids, references, verified remote party, answer, RECEIVED or REJECTED |
| ExchangeObjects.ReceivingExchange.Receive | as4/core/exchange.py:165-178 | parsing and answering; a local fault escapes and leaves the exchange as it was |
| ExchangeObjects.ExchangeIdentifiers.EncryptedDataAttachmentMapping | as4/core/references.py:63-66 | an empty map gets the fresh entry, any other map is kept; the first entry is returned |
| AcceptedBuilds.HonestRunIsExact | as4/core/exchange.py:110-197 | otherwise honest input reaches RECEIVED with the built content, and ACKNOWLEDGED on the answer, exactly when the attachment map has one entry and the payload is not a routing header |
| AcceptedBuilds.HonestBuildIsAcceptedExactly | as4/profiles/peppol/message.py:562-608 | a welcoming receiver accepts what is built from otherwise honest input exactly under those two conditions |
| AcceptedBuilds.AcceptedBuildIsSingle | as4/profiles/peppol/message.py:286-292 | no receiver at all accepts what is built from several attachment entries or from a payload that is a routing header |
| AcceptedBuilds.RoutingPayloadIsRejected | as4/profiles/peppol/message.py:157-174 | such a payload passes every stage but the last, and leaves both sides REJECTED |
| HonestRuns.HonestRunCompletes | as4/core/exchange.py:110-197 | acceptable honest input and a welcoming receiver reach RECEIVED with the built content and ACKNOWLEDGED on the answer |
| HonestParse.HonestMessageIsAccepted | as4/core/message.py:147-169 | parsing an honest message yields no error and exactly the built fields, addressee and signer |
| HonestParse.CarriedMessageIsAccepted | as4/core/message.py:147-169 | so does every document with its security header and body whose header block names the same parties and payload, with that block's ids |
| HonestParse.HonestSignatureStage | as4/core/message.py:295-348 | an honest message passes resolver, signature, coverage and element digests |
| HonestParse.HonestDecrypt | as4/core/message.py:428-433 | its one attachment is decrypted to the compressed payload and its digest verifies |
| HonestParse.HonestUnpack | as4/core/message.py:435-458 | the payload is decompressed to the delivered document |
| HonestParse.HonestSbdh | as4/profiles/peppol/message.py:148-197 | routing fills in the builder's sender, recipient, document type and process |
| HonestMessages.UserMessagingIsWellFormed | as4/profiles/peppol/message.py:246-312 | a header block built from trimmed values is well-formed, so parsing returns it unchanged |
| HonestDocuments.RoutingHeaderIsRead | as4/profiles/peppol/message.py:157-174 | the routing header of a delivered document is read back unchanged, unless the payload beside it is itself a routing header: then none is read |
| HonestDocuments.ExtraChildIsIgnored | as4/models/common.py:109-133 | an undeclared child does not change what is loaded |
| HonestSecurity.HonestAttachmentIsDecrypted | as4/core/message.py:350-413 | the built security header leads its recipient to the sealed attachment and its session key |
| Identifiers.UserDocumentIdsAreDistinct | as4/core/references.py:50-61 | distinct, non-empty identifiers of an exchange give a document whose Id attributes are distinct |
| Identifiers.SignalDocumentIdsAreExact | as4/core/receipt.py:475-553 | a signal's Id attributes are distinct exactly when its own ids and those it copies with the references have no repetition |
| Identifiers.SignalDocumentIdsAreDistinct | as4/core/receipt.py:475-553 | distinct ids of an exchange suffice for an error signal, and for a receipt whose references carry no Id |
| Identifiers.DumpedIds | as4/models/common.py:202-247 | the Id attributes of a dumped tree are those its model carries, at every depth |
| Readable.AnswerIsReadable | as4/core/receipt.py:78-155 | a built signal parses under the answering certificate exactly when the message is answerable, and then gives its error or references and its id |
| Readable.AcceptedIsAnswerable | as4/core/receipt.py:210-231 | every message accepted with its digests verified is answerable |
| Readable.RefusedIsAnswerable | as4/core/receipt.py:256-303 | a message the library refused is answerable exactly when its id is not white space only |
| ParseJudgements.ParseIsJudged | as4/core/message.py:118-460 | the outcome of every parse: accepted exactly when every written-out condition holds, otherwise the first failing one decides the code of the answer or the exception that escapes |
| ParseJudgements.AcceptorDecides | as4/profiles/peppol/message.py:182-186 | only a recipient that the acceptor accepts is accepted; one not serviced is refused as such, a refusal is answered as it is, a failure escapes |
| Judgements.FirstProblemIsReported | as4/errors.py:75-80 | validation reports the first of all that is wrong, fields in order, depth first |
| Judgements.SignatureIsJudged | as4/models/dsig/signature.py:148-160 | a signature verifies exactly with exclusive canonicalisation, one of the three literal RSA algorithms, an RSA key and the text of that key over SignedInfo; every other case has its code |
| Judgements.SignerIsJudged | as4/core/message.py:295-348 | the signature stage, condition by condition: policy, first token that the KeyInfo points to, user message, resolver, signature, coverage, element digests |
| ParseJudgements.DecryptionIsJudged | as4/core/message.py:350-413 | decryption, condition by condition: policy, RSA-OAEP for the own key, each data reference, its AES-128-GCM attachment |
| ParseJudgements.RoutingIsJudged | as4/profiles/peppol/message.py:148-197 | routing, condition by condition: both party types, a schema-valid routing header, both named participants when the policy says so, the acceptor, the three scopes |
| Answers.AnswerSaysWhy | as4/core/receipt.py:210-303 | the stored answer is a receipt exactly when nothing is wrong, and otherwise one error with the literal code and severity of the first thing that is; a recipient not serviced is answered with PEPPOL:NOT_SERVICED, a hook's refusal with its code and reason |
| Answers.UnreadablePartIsAnswered | as4/errors.py:151-176 | a request without readable SOAP or payload part is answered EBMS:0009 |
| SignalJudgements.ReadingIsExact | as4/core/receipt.py:78-155 | the outcome of reading any octets as a signal: readable, a ReceiptVerificationError, or another exception, each under written-out conditions; and the id it is for |
| SignalJudgements.BuiltSignalSays | as4/core/receipt.py:326-405 | a built signal names itself, its time and the answered message, and holds one error or one receipt with a part for each reference in order |
| BuiltContent.SignalEnvelopeSays | as4/core/receipt.py:406-553 | its envelope holds one token, and a signature of its key over the header block and the body, with the literal algorithms |
| BuiltContent.BuiltMessageSays | as4/profiles/peppol/message.py:241-560 | every value of a built message: parties and roles, agreement, service, action, conversation, properties, parts, tokens, encrypted key and data, signed references, attachment |
| BuiltContent.DeliveredSays | as4/profiles/peppol/message.py:199-239 | the delivered document is the routing header, with the participants, the document and the three scopes, followed by the payload |
| AcceptedBuilds.HonestMessageSays | as4/core/message.py:147-169 | the receiver of an honest message reads exactly those values in the header block and in the routing header |
| Answers.AnswerMatchesState | as4/core/exchange.py:180-197 | the stored signal is a receipt for the message's own references exactly when RECEIVED, and a single error with the refusal's code and detail exactly when REJECTED |
| Answers.RemotePartyIsVerified | as4/core/exchange.py:180-194 | receive replaces the remote party only by a signer whose signature stage was passed |
| Answers.BlankIdIsAnsweredUnreadably | as4/core/receipt.py:319-323 | a document whose message id is one space is refused with an error signal that its sender cannot parse |
| Answers.AnswerIsReadableExactly | as4/core/receipt.py:78-155 | every answer is readable exactly when its message is answerable and the copied ids repeat neither each other nor the answer's own |
| Answers.ReceiptIsReadable | as4/core/receipt.py:233-253 | the receipt for a message accepted with its digests verified is readable exactly when no acknowledged reference carries one of the receipt's own ids |
| Answers.RefusalIsReadable | as4/core/receipt.py:256-303 | the answer to a refused message is readable exactly when the message is answerable, for the library's own refusals when its id is absent or not white space only |
| Construction.BuiltBlocksAreFound | as4/core/common.py:16-26 | looking up the messaging or body id in a built document gives the tree that dumping that model alone gives |
| Construction.BuiltReferencesVerify | as4/profiles/peppol/message.py:314-367 | the digests computed while building verify on the built document, for user messages and signals |
| Construction.BuiltSignatureVerifies | as4/models/dsig/signature.py:148-160 | a built signature, read back, verifies under the certificate of its key |
| Acceptance.AcceptanceIsSound | as4/core/message.py:147-169 | without an error: the signature verifies under the resolved certificate, Messaging and Body are covered, element digests match, every declared href is a signed cid: URI of a present, decrypted, digest-checked attachment |
| Acceptance.ResultsAreStaged | as4/core/message.py:147-169 | whatever parse returns, its fields are those of a prefix of the pipeline, and of all of it without an error |
| Acceptance.SignatureStageIsExact | as4/core/message.py:295-348 | the signature stage returns a signer exactly when token, resolver, signature, coverage and digests agree on it, and none exactly for an unsigned message the policy lets through |
| Acceptance.AcceptorIsAskedLast | as4/profiles/peppol/message.py:148-187 | the acceptor is called at most once, after the core pipeline, party types and schema, with a recipient equal to finalRecipient in value and scheme |
| Acceptance.ElementDigestsAreChecked | as4/core/message.py:238-258 | the element loop passes exactly when every element reference resolves and verifies |
| Acceptance.AttachmentDigestsAreChecked | as4/core/message.py:260-281 | the attachment loop passes exactly when every attachment reference names an attachment and verifies |
| Acceptance.PayloadCoverage | as4/core/message.py:171-190 | "payloads" is granted exactly when every declared href is a signed cid: URI |
| Acceptance.CoverageIgnoresOrder | as4/core/message.py:171-190 | coverage depends on the set of references only |
| Acceptance.CoverageGrows | as4/core/message.py:171-190 | more references never cover less |
| Acceptance.DecryptionIsExact | as4/core/message.py:384-413 | decryption succeeds exactly when each reference does, and holds exactly the named attachments, each its own decryption |
| Acceptance.DecryptionIgnoresOrder | as4/core/message.py:384-413 | neither order nor repetition of data references matters |
| Acceptance.DecompressionPerAttachment | as4/core/message.py:445-458 | every decrypted attachment is decompressed once for each part that names it, in order |
| Acceptance.DecompressionIsExact | as4/core/message.py:445-458 | with distinct hrefs: exactly once, in full and within the cap; other parts untouched |
| MessageParser.SignatureCoverage | as4/core/message.py:171-190 | the one-pass loop computes the coverage of the reference set |
| MessageParser.VerifyReferenceDigests | as4/core/message.py:238-258 | the loop ends with the first element reference that does not resolve or verify |
| MessageParser.VerifyAttachmentDigests | as4/core/message.py:260-281 | the loop ends with the first attachment reference that does not verify |
| MessageParser.GetVerifiedSigner | as4/core/message.py:295-348 | every branch of get_verified_signature, in order |
| MessageParser.DecryptAttachments | as4/core/message.py:384-413 | the reference loop and each of its failures |
| MessageParser.GetDecryptedData | as4/core/message.py:350-413 | every branch of get_decrypted_data, in order |
| MessageParser.FieldDictionary.FillIds | as4/core/message.py:118-145 | ids and addressee written into the dictionary, kept when a later step raises |
| MessageParser.FieldDictionary.FillSigner | as4/core/message.py:415-427 | envelope, index and signer |
| MessageParser.FieldDictionary.FillDecrypted | as4/core/message.py:428-433 | decrypted data, and digests on the still compressed bytes |
| MessageParser.FieldDictionary.FillDecompressed | as4/core/message.py:435-458 | the part loop rewrites the dictionary's own data |
| MessageParser.FieldDictionary.Process | as4/core/message.py:415-460 | the core pipeline on the shared dictionary |
| MessageParser.FieldDictionary.FillRouting | as4/profiles/peppol/message.py:174-197 | participants, acceptor and scopes |
| MessageParser.FieldDictionary.FillSbdh | as4/profiles/peppol/message.py:148-197 | party types, first payload, header, schema, routing |
| MessageParser.ParseWire | as4/core/message.py:147-169 | the message with the fields filled so far and the refusal, or the local fault that escapes |
| SignalReader.VerifySignalDigests | as4/core/receipt.py:142-155 | the reference loop and its problems |
| SignalReader.VerifySignalSignature | as4/core/receipt.py:113-155 | every branch of verify_signature, in order |
| SignalReader.ParseSignal | as4/core/receipt.py:78-100 | reading, correlation and verification of a signal |
| Receipts.NonRepudiationIsInclusion | as4/core/receipt.py:168-183 | the check passes exactly for a receipt with acknowledged within sent, required within acknowledged, and a non-empty explicit requirement |
| Receipts.NonRepudiationConsequences | as4/core/receipt.py:168-183 | by default equality of sets; order-free; a requirement beyond what was sent always fails |
| Receipts.VerifyNonRepudiation | as4/core/receipt.py:168-183 | the two loops and their first offender |
| Dsig.BuiltDigestMatches | as4/models/dsig/reference.py:75-116 | a built digest verifies for exactly the content it was computed from |
| Dsig.EqualReferencesAgree | as4/models/dsig/reference.py:119-136 | two references that compare equal and verify cover the same content |
| Dsig.ComparableSurvivesDump | as4/models/dsig/reference.py:119-136 | dumping and parsing do not change what a reference compares as |
| Dsig.ComparisonIsExact | as4/models/dsig/reference.py:119-136 | two references compare equal exactly when URI, digest algorithm, digest value and the number of each transform algorithm are the same |
| Documents.IndexElementsById | as4/core/common.py:16-26 | the loop that indexes a document, or names its first repeated id |
| Documents.IndexIsExact | as4/core/common.py:16-26 | indexing succeeds exactly for distinct ids, and maps each id to its only carrier |
| Documents.IdEntriesAreExact | as4/utils/xml_parser.py:12-18 | what is indexed is exactly every attribute with local name Id, of every element of the document |
| XmlMapping.ElementToDict | as4/models/common.py:109-129 | children grouped by tag in order, attributes, stripped text |
| XmlMapping.DumpToXml | as4/models/common.py:202-247 | the field loop writes attributes, text and children of the model |
| XmlMapping.SerialiseList | as4/models/common.py:142-200 | one element for each list item, in order |
| XmlMapping.DumpDict | as4/models/common.py:109-129 | dump, then read: exactly undeclared entries, empty attributes, blank text, outer white space and empty lists are lost |
| XmlMapping.DumpIsInOrder | as4/models/common.py:202-247 | child elements are written in the order in which the class declares them |
| XmlMapping.RoundTrip | as4/models/common.py:109-133 | a well-formed model is what parsing its own dump yields, at every depth |
| Completeness.LoadDumpIsExact | as4/models/common.py:109-133 | a dumped tree parses exactly when no required value was lost and no single-valued child repeated |
| XmlMapping.RepeatedChildIsRefused | as4/models/common.py:32-39 | a repeated single-valued child at any depth is refused |
| XmlMapping.LoadedChildren | as4/models/common.py:109-133 | same-tag children keep their order |
| Terms.StripIsExact | as4/models/common.py:126-128 | stripping takes white space off both ends and leaves none there |
| Terms.SpacesAreExact | as4/models/common.py:126-128 | what counts as white space: visible ASCII never, blanks, tabs, line ends and the separators always |
| Builder.BuildEncryptedData | as4/profiles/peppol/message.py:438-472 | one EncryptedData for each entry of the attachment map |
| Trust.FindIssuer | as4/core/trust.py:45-57 | the first candidate that may issue and did |
| Trust.PathToAnchor | as4/core/trust.py:60-75 | the while loop follows the search |
| Trust.PathIsSound | as4/core/trust.py:60-75 | a returned path links leaf to anchor through distinct intermediates, within the depth |
| Trust.EveryOrderFindsAPath | as4/core/trust.py:60-75 | the search finds a path in every order of the intermediates exactly when no partial path is stuck |
| Trust.PathIsComplete | as4/core/trust.py:60-75 | with unique issuers a path is found exactly when a chain within the depth exists, and it is the shortest |
| Trust.GreedySearchMissesAChain | as4/core/trust.py:60-75 | without unique issuers the search can fail although a chain exists |
| Trust.DepthBoundIsEnough | as4/core/trust.py:66-75 | with room for all intermediates the depth error is unreachable |
| Trust.ResolveByChain | as4/core/trust.py:87-99 | the resolver's loop over the path |
| Trust.ChainResolutionIsSound | as4/core/trust.py:78-99 | a trusted certificate is the embedded one, at the start of a chain of acceptable certificates |
| Trust.ChainResolutionIsExact | as4/core/trust.py:78-99 | with unique issuers, a certificate is trusted exactly when it is embedded and a simple chain of acceptable certificates within the depth leads from it to an anchor |
| Trust.UnstuckIsTrusted | as4/core/trust.py:78-99 | whatever the issuers, it is trusted when no partial path is stuck and every certificate is acceptable |
| Trust.PinnedResolutionIsExact | as4/core/trust.py:15-30 | a certificate is trusted exactly when a pinned one has its fingerprint, and the pinned one is what is trusted |
| DocumentIdentifier.ParseIsRightmostSplit | as4/profiles/peppol/document_identifier.py:12-25 | the backtracking match is the split at the rightmost `##` that has a `::` after it, then the rightmost `::` |
| DocumentIdentifier.PrintUndoesParse | as4/profiles/peppol/document_identifier.py:35-37 | printing a parsed one-line identifier returns it |
| DocumentIdentifier.ParseUndoesPrint | as4/profiles/peppol/document_identifier.py:12-37 | a printed triple is recovered exactly when its own separators are the rightmost ones |
| DocumentIdentifier.RootsAreSplit | as4/profiles/peppol/document_identifier.py:27-33 | the root's namespace is what stands before the first `::`, its name what stands up to the next one or the end |
| DocumentIdentifier.VersionWithColonsIsNotRecovered | as4/profiles/peppol/document_identifier.py:12-37 | a triple whose version contains `::` is parsed back as another triple |
| StoredErrors.LoadUndoesDump | as4/core/serialisation.py:52-63 | a stored error gets its own class back exactly when that class is the last of its name, and none exactly when no subclass has the name |
| StoredErrors.DescendantsAreSubclasses | as4/core/serialisation.py:12-15 | the generator yields exactly the proper subclasses |
| StoredErrors.DescendantsInOrder | as4/core/serialisation.py:12-15 | it is depth first: each subclass in definition order, followed by its own descendants |

## Left out

- XML: parsing, namespace prefixes, comments, processing instructions, tail text and wildcard content; exclusive canonicalisation is a function of the subtree, so InclusiveNamespaces is not modelled.
- Coercions: dates, booleans and base64 are their printed text; validation distinguishes only missing, repeated and present.
- Back-pointers from models to their elements: the signed SignedInfo is found by its path instead.
- Cryptography: RSA, OAEP, AES-GCM, SHA-2, gzip and X.509 are symbolic terms; only RSA-SHA-256 signatures and SHA-256 digests are built.
- MIME packaging and HTTP: a message is a SOAP document with a map of attachments; unpacking is a result that is handed in.
- Unused fields: key references, carried key names, encryption properties, objects, and KeyInfo shapes other than a security token reference.
- Error prose: descriptions, categories, short descriptions and refToMessageInError are not part of a built error; of the library's own details only their being non-empty is.
- SBDH schema: its XSD is not part of this model; it is a predicate of the parse context.
- Clocks, fresh identifiers, session keys and revocation: parameters.
- The profile's filter on resolvers that compares certificate names with eb:From: it only narrows another resolver's answer.
- Class hierarchies of profiles: only the Peppol message and its receipt are modelled.
- In-place changes of element trees: dumping and appending the payload return new trees.
- JSON: the stored fields other than the local party's credentials, which are not stored, are dumped and loaded unchanged; a stored refusal is looked up by class name in `StoredErrors` only, and refusals of exchanges are not connected to that class tree.
- Network.AcknowledgedMeansDelivered: speaks of signals that cover their header, without which it is false (`SplitRuns`), and of receivers that verify digests, because undigested content is not authenticated.
- Network.ReceivedMeansBuilt: speaks of receivers that verify digests and require coverage of Messaging, as the default policy does.
- Routing.FirstAttachmentRoutes: speaks of the routing stage only; how another document can come to be decrypted first is not modelled.
