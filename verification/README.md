# Verified model of the guard's evidence journals and dispatch protocols

The repository records what an application did through the guard in hash-chained
journals, verifies those journals with algorithms written independently of the
recorders, recovers them after a crash, and runs dispatch protocols that log before
they act. This project models these pieces in Dafny and proves what they are for:

- **Gateway** (`Gateway*.dfy`): the recorder with its duplicated counters and
  interleaved attempts against the bundle verifier; completeness (an if-and-only-if
  over every finalized session), soundness for arbitrary bundles, and what a refused
  terminal frame does to finalization.
- **Stdio journal** (`Stdio{Journal,Recorder,Recovery,Counters,Contents,Objects,Write}.dfy`):
  prefix check, live calls, crash at any append including during recovery, counters,
  partial writes.
- **Runtime journal** (`Runtime*.dfy`): prefix and bundle checks, the durable
  recorder, when crashes are invisible, provenance, least privilege.
- **HTTP access journal and proxy** (`Http*.dfy`): the journal and its recovery, the
  proxy's interleaved handlers and their accounts.
- **Hash chains** (`HashChain.dfy`, `JournalChains.dfy`): the head determines history.
- **Text layer** (`TextUnits`, `Sse*`, `Json*`, `Canonical*`): the chunked
  server-sent-event parser against the whole-text parser; canonical JSON as an
  injective, parseable encoding.
- **Dispatch protocols** (`StdioProxy*.dfy`, `Stdio{Session,Discovery}.dfy`, `Egress*.dfy`,
  `Loopback*.dfy`): handlers split at their awaits and interleaved freely.
- **Derivations** (`ActorGraph*.dfy`, `PackChain.dfy`,
  `ProofPack*.dfy`, `Governance.dfy`).

In each of these the files `*Contents.dfy`, `*Forms.dfy`, `Formats.dfy`, `GatewayCalls.dfy`,
`StdioProxyResults.dfy`, `StdioProxyTurns.dfy` and `StdioDiscovery.dfy` say in literals, apart from
the functions that recorder and verifier share, what is recorded, returned, accepted and refused.

`dafny verify dfyconfig.toml` checks the whole project.

## How the model reads

SHA-256 is a parameter: a function from what is hashed to digests, and theorems that
need it say on which contents equal digests must mean equal contents. For a journal
(`CollisionFree`) these are its records; records of different schemas are different
constructors of one datatype, since each carries its schema's name. The gateway also
hashes request and response bodies as they come, and a body may be the text of a
record, so its theorems ask for occurrences or frames alone
(`OccurrenceCollisionFree`, `FrameCollisionFree`). For canonical JSON and the proof
pack, whose links carry no schema, the hash is one of texts, free of collisions on
well-formed UTF-16 (`TextCollisionFree`): that canonical texts are well-formed, and that
the texts of seed and links all differ, is proved. A digest is a natural number and its
text at least sixty-four hexadecimal digits, since no function without collisions has
values of fixed width.
Instants are natural numbers (fixed-width ISO text orders like numbers); every clock
reading is a parameter. A file of appended lines is the sequence of its receipts, and a
call that returned has appended durably, so a crash keeps a prefix. Policy evaluation,
identity checks, the SDK recorder and the upstream are parameters of the steps that
consult them. A verifier is a method that collects blockers, proved to collect exactly
those for which a predicate holds. A recorder is modelled twice: as functions on values,
about which the theorems speak, and as a class whose methods update its fields in place,
each proved equal to the function. Bounds by `MAX_SAFE_INTEGER` are the source's own
safe-integer checks on sequence numbers and counts.

Where the code does not do what one would expect of it, the exact condition is proved
and an instance is shown:

- a recorded gateway session verifies without clock blockers exactly if its readings were
  in order (`GatewayCompleteness`, `ClockStepBackIsBlocked`);
- for every cutting of every text the segments that a chunked event stream reads are
  known (`StreamReadsExactly`); if its waiting buffers keep no CR LF, it is read exactly
  if the whole text is and those buffers fit the frame limit (`StreamAcceptsExactly`),
  which segments of exactly that limit need not do (`SegmentAtLimitRefusedInStream`);
  only texts with CR CR LF can leave a CR LF waiting, and then the cutting can matter
  (`CrCrLfRefusedInStream`);
- a dispatch throws with its attempt open exactly for the replies that no frame can carry,
  and with its attempt closed, unanswered and the recorder never to be finalized exactly if
  a frame could but its readings or numbers do not fit (`ThrowsExactly`,
  `FirstDispatchLeaves`);
- the loopback gateway accepts no native request ever again exactly if the next native id
  is held by an attempt that is no native one in flight, or is too long to be an id
  (`NativesWedgedExactly`): a native dispatch left by an exception does it
  (`ExceptionWedgesNatives`), and so does every explicit envelope under that id whose
  content passes (`ExplicitEnvelopeWedgesNatives`, `FirstEnvelopeWedgesNatives`);
- the stdio proxy closes with a verified bundle exactly if the SDK recorder, once made,
  has no open operation and at least one ended one, no transaction is open, and the clock
  did not run backwards (`CloseVerifiesExactly`, `EmptySdkBlocksClose`,
  `OpenOperationBlocksClose`);
- crashes of the runtime recorder are invisible exactly if none follows a successful
  finalize (`CrashesAreInvisible`, `CrashAfterFinalizeIsVisible`);
- what an accepted runtime journal records as blocked left no trace, except exactly for
  network sends and receives with a payload (`BlockedTraceExactly`,
  `BlockedSendMayCarryBytes`);
- the HTTP journal counts a faulty request that was already recognised as a tool call
  twice (`AccountsAddUp`, `FaultyToolCallCountsTwice`).

## Model

| member | source | states |
|---|---|---|
| GatewayTheorems.GatewayCompleteness | src/gateway-verify.ts:66-196 | for every interleaving of calls on any number of attempts, the finalized bundle raises no blocker but one identity-mismatch record for each attempt resolved elsewhere, if and only if the recorded instants are in order |
| GatewayInstances.ClockStepBackIsBlocked | src/gateway-verify.ts:76-76 | a session finalized over a clock that stepped back between two frames: the verifier blocks it |
| GatewayTheorems.RecordedBundleBlockers | src/gateway-verify.ts:24-196 | which blockers the verifier deserves on any bundle the recorder finalized: recorded mismatches and clock blockers, no others |
| GatewayClock.MonotoneClockSuffices | src/gateway.ts:290-474 | a clock that never runs backwards over the session's readings makes the finalized bundle free of clock blockers |
| GatewayInvariant.RunKeeps | src/gateway.ts:245-474 | after any calls the chain's and the manifest's counters describe the log, pairs and lineage are sound, the open count is decisions minus actions, and the attempt map holds exactly the recorded attempts |
| GatewayInvariant.AdmitKeeps | src/gateway.ts:346-402 | an admitted attempt logs its decision, and its censored action if blocked, or nothing at all; a blocked handle is closed, an allowed one open |
| GatewayInvariant.FinishKeeps | src/gateway.ts:214-242 | closing an attempt adds the one action that answers its decision, or nothing; the handle is closed either way |
| GatewayRefusals.PrepareRecordedExactlyWhen | src/gateway.ts:290-403 | a prepare whose inputs and lineage pass is recorded exactly if its readings are in order and its numbers safe, a blocked one with its censored action |
| GatewayRefusals.SuccessRecordedExactlyWhen | src/gateway.ts:119-145 | a valid success is recorded exactly if its readings are in order and its numbers safe; it returns exactly if the resolved model is the requested one; otherwise nothing is recorded but the handle is closed |
| GatewayRefusals.FailureRecordedExactlyWhen | src/gateway.ts:147-205 | the same for a failure of each of the three outcomes |
| GatewayRefusals.RefusalSticks | src/gateway.ts:214-242 | a refused terminal frame leaves its attempt closed without an action |
| GatewayRefusals.RefusalBlocksFinalize | src/gateway.ts:405-412 | after such a refusal no continuation of the session ever finalizes |
| GatewayCalls.PrepareRefusedFor | src/gateway.ts:290-349 | which prepare is refused without a trace and for what: its inputs in the order of the checks, an attempt that the log already decides, a retry whose attempt before is not decided under the occurrence it names |
| GatewayCalls.SpoolRefuses | src/gateway.ts:455-468 | which clean frames the spool refuses after the chain has advanced, and for what |
| GatewayCalls.MarkHolds | src/gateway.ts:111-117 | when marking is refused and for what; otherwise the instant alone is set |
| GatewayCalls.SuccessRefusedFor | src/gateway.ts:119-145 | which success is refused before anything is recorded, and for what, its attempt left open; any other closes it |
| GatewayCalls.FailureRefusedFor | src/gateway.ts:147-205 | the same for a failure, with what each outcome must and must not carry |
| GatewayContents.NewRecorderHolds | src/gateway.ts:257-288 | a new recorder has recorded nothing and may be written |
| GatewayContents.PreparedFrames | src/gateway.ts:290-403 | what a prepare records, field by field: attempt, digests and policy of the decision, the action of a blocked one policy-censored exactly if the policy censors and budget-censored exactly if the budget does, links, and both counters |
| GatewayContents.SucceededFrame | src/gateway.ts:119-145 | what a success records, field by field, a success exactly if the resolved model is the requested one |
| GatewayContents.FailedFrame | src/gateway.ts:147-205 | what a failure records, field by field |
| GatewayContents.FinalizedManifest | src/gateway.ts:405-412 | when finalize is refused and for what, and the one change it makes otherwise |
| GatewaySoundness.GatewaySoundness | src/gateway-verify.ts:66-196 | an accepted bundle, whoever wrote it, is a chain of lone decision-action pairs, decision first, twice as many frames as attempts, attempt numbers of each request exactly 1..k, every retry naming the attempt before it |
| GatewaySoundness.AcceptedPairs | src/gateway-verify.ts:114-164 | every accepted frame is in exactly one pair; the action answers the decision, censored exactly if the policy blocked, and was not dispatched before the policy was evaluated |
| GatewaySoundness.AcceptedCount | src/gateway-verify.ts:180-196 | accepted manifests count the frames, half as many attempts, name the head, and are finalized |
| GatewaySoundness.AcceptedParent | src/gateway-verify.ts:166-178 | every accepted retry has a recorded parent with the number before |
| GatewayContents.AcceptedFrameHolds | src/gateway.ts:570-880 | every frame of an accepted bundle is linked and sealed, its identifiers and numbers are well-formed, its policy receipt is that of its decision, and its terminal has exactly the fields of its outcome |
| GatewayContents.AcceptedActionHolds | src/gateway-verify.ts:120-164 | in an accepted bundle the action of a decision is policy-censored exactly if the policy blocked it and budget-censored exactly if the budget did, with one of its reasons, and was otherwise dispatched after the policy was evaluated |
| Formats.StableIdForm | src/security.ts:50-54 | stable ids by character code and length |
| Formats.KnownProviderForm | src/gateway.ts:909-913 | the four providers, and custom names by character code and length |
| Formats.ModelPinForm | src/gateway.ts:899-907 | model names by character code and length, with a digit, and with no part between separators that names a moving alias in any case |
| Formats.LowerForm | src/gateway.ts:903-903 | what a comparison in any case does to each character |
| Formats.MediaTypeForm | src/gateway.ts:557-557 | printable characters only |
| GatewayVerifier.VerifyGatewayBundle | src/gateway-verify.ts:24-196 | the nested-map algorithm reports exactly the blockers that the declarative definition gives, for every manifest and log |
| GatewayVerifier.ScanFrames | src/gateway-verify.ts:66-112 | the frame loop reports the per-frame, chain and repetition blockers, and leaves maps that describe the log |
| GatewayVerifier.CheckPairs | src/gateway-verify.ts:114-164 | missing, out-of-order and mismatching halves of every pair |
| GatewayVerifier.CheckLineage | src/gateway-verify.ts:166-178 | missing and mismatching predecessors of every retry |
| GatewayVerifier.CheckManifest | src/gateway-verify.ts:180-277 | manifest shape, counts, head, status and instants against the log |
| GatewayObjects.GatewayFrameChain.Append | src/gateway.ts:533-550 | a frame is numbered and linked from the chain's fields; a refused one leaves them unchanged |
| GatewayObjects.GatewayRecorder.Prepare | src/gateway.ts:290-402 | the method updates fields, chain and attempt map as the value function says and returns a fresh attempt, censored or open, or the same error |
| GatewayObjects.GatewayRecorder.CloseAttempt | src/gateway.ts:424-453 | appends the action and moves both counters, or neither |
| GatewayObjects.GatewayRecorder.Finalize | src/gateway.ts:405-412 | refuses open attempts and empty bundles, else seals the manifest |
| GatewayObjects.GatewayAttempt.MarkDispatched | src/gateway.ts:111-117 | the dispatch instant is set once, on an open uncensored attempt only |
| GatewayObjects.GatewayAttempt.Succeed | src/gateway.ts:119-145 | state and result of succeed, the identity-mismatch exception with its recorded frame included |
| GatewayObjects.GatewayAttempt.Fail | src/gateway.ts:147-205 | state and result of fail |
| StdioJournal.PrefixBlockers | src/mcp-stdio-evidence.ts:560-607 | the prefix loop reports exactly the deserved blockers of header, chain, bindings, authority and shapes |
| StdioJournal.AcceptedIsPrefixClosed | src/mcp-stdio-evidence.ts:560-607 | every prefix of an accepted journal is accepted |
| StdioJournal.AcceptedExtends | src/mcp-stdio-evidence.ts:419-443 | appending to an accepted journal is accepted exactly if the new receipt raises nothing |
| StdioJournal.FindOpen | src/mcp-stdio-evidence.ts:609-626 | the recovery's open transactions, deleted on every terminal, are those the prefix check leaves open |
| StdioRecovery.AuthorizeExactly | src/mcp-stdio-evidence.ts:293-317 | a fresh authorization is recorded exactly if the clock did not run backwards |
| StdioRecovery.TerminateExactly | src/mcp-stdio-evidence.ts:319-344 | a terminal of an open transaction is recorded exactly if it fits the authority, claims completion or mismatch only after a write, and the clock did not run backwards |
| StdioRecovery.PlayKeeps | src/mcp-stdio-evidence.ts:293-443 | over any live run the journal stays accepted and the in-memory open map is the one recovery would find |
| StdioRecovery.CloseOpenSucceeds | src/mcp-stdio-evidence.ts:351-356 | closing any distinct open transactions in any order with an orderly clock never fails, keeps what was recorded, and adds exactly one interruption each |
| StdioRecovery.CrashAnywhere | src/mcp-stdio-evidence.ts:273-387 | cut any run at any append, interrupt any number of recoveries at any append, then recover and finalize: the durable prefix is kept, exactly one interruption is added for each transaction open in it, and the verifier accepts |
| StdioCounters.CountersAddUp | src/mcp-stdio-evidence.ts:709-720 | in a verified bundle total = allowed + blocked, two receipts for every transaction, allowed lies between completed + failed and that plus interrupted, with equality and no interruption unless recovered |
| StdioCounters.CountersCount | src/mcp-stdio-evidence.ts:709-720 | each counter is the number of receipts of its decision or dispositions |
| StdioContents.NewRecorderHolds | src/mcp-stdio-evidence.ts:200-249 | a new recorder has recorded nothing and may be written |
| StdioContents.AuthorizationHolds | src/mcp-stdio-evidence.ts:293-317 | what an authorization records, field by field, and the open entry it makes |
| StdioContents.TerminalHolds | src/mcp-stdio-evidence.ts:319-344 | what a terminal records, field by field: its transaction, authorization, disposition, write claim and SDK occurrence |
| StdioContents.InterruptionHolds | src/mcp-stdio-evidence.ts:346-387 | an interruption claims nothing about its call |
| StdioContents.FinalBundleHolds | src/mcp-stdio-evidence.ts:346-387 | the finalization that a session writes, field by field |
| StdioContents.VerifiedHolds | src/mcp-stdio-evidence.ts:453-506 | the finalization of every verified bundle, whoever wrote it, names its header, head, count, counters and recovery |
| StdioContents.AcceptedReceipt | src/mcp-stdio-evidence.ts:560-607 | every accepted receipt is linked, sealed, in time and well-formed, and no request is authorized twice |
| StdioContents.AcceptedTerminal | src/mcp-stdio-evidence.ts:575-600 | every accepted terminal ends one earlier authorization that nothing ended before, with what that authorization allows it to say |
| StdioContents.AuthorizeRefusedFor | src/mcp-stdio-evidence.ts:293-317 | which authorization is refused, and for what |
| StdioContents.TerminateRefusedFor | src/mcp-stdio-evidence.ts:319-344 | which terminal is refused, and for what |
| StdioContents.EndRefusedFor | src/mcp-stdio-evidence.ts:251-387 | which finalize and which recovery is refused, and for what |
| StdioRecorder.VerifyBundle | src/mcp-stdio-evidence.ts:453-506 | the bundle check reports nothing exactly for a verified bundle |
| StdioObjects.McpStdioAccessRecorder.AppendReceipt | src/mcp-stdio-evidence.ts:419-443 | appends exactly the next receipt, or nothing if the candidate prefix is blocked |
| StdioObjects.McpStdioAccessRecorder.AuthorizeRequest | src/mcp-stdio-evidence.ts:293-317 | receipt list and open map after authorize, with every refusal |
| StdioObjects.McpStdioAccessRecorder.Terminal | src/mcp-stdio-evidence.ts:319-344 | receipt list and open map after terminal, with every refusal |
| StdioObjects.McpStdioAccessRecorder.FinalizeSession | src/mcp-stdio-evidence.ts:346-387 | state and bundle after finalize, the closing loop of a recovered session included |
| StdioWrite.WriteBufferFully | src/mcp-stdio-evidence.ts:815-828 | what reached the file is a prefix of the buffer; the loop returns exactly if the writer took everything in positive portions, and then all of it |
| StdioWrite.PartialAppendIsTorn | src/mcp-stdio-evidence.ts:528-558 | an append that did not return changes no complete line of the journal and leaves at most an unterminated one |
| StdioWrite.FullAppendAddsLine | src/mcp-stdio-evidence.ts:797-804 | an append that returned adds exactly its line |
| RuntimeJournal.VerifyPrefix | src/runtime-evidence.ts:287-362 | the prefix loop reports exactly the deserved blockers, and on acceptance the head and the recorded terminal status |
| RuntimeJournal.AcceptedIsPrefixClosed | src/runtime-evidence.ts:309-362 | every prefix of an accepted journal is accepted |
| RuntimeRecorder.VerifyBundle | src/runtime-evidence.ts:218-284 | the bundle check reports nothing exactly for a verified bundle |
| RuntimeTheorems.VerifiedExactly | src/runtime-evidence.ts:218-284 | a bundle verifies if and only if it is the very bundle a recorder holding its receipts would write, up to anchor store and instants in order |
| RuntimeTheorems.FinalizeExactly | src/runtime-recorder.ts:203-267 | finalize succeeds exactly once a terminal receipt is recorded and not after the given instant |
| RuntimeContents.NewRecorderHolds | src/runtime-recorder.ts:81-117 | a new recorder has recorded nothing and may be written |
| RuntimeContents.AppendRecordedExactly | src/runtime-recorder.ts:177-301 | an append to a running journal is recorded exactly if its occurrence is well-formed and new, neither of its times steps back, its body says what its kind asks for, credentials resolve only what was requested and declared, and a side effect names a recorded source |
| RuntimeContents.BodyShapeMeans | src/runtime-evidence.ts:421-525 | the rules for each kind of body, in both directions |
| RuntimeContents.AppendHolds | src/runtime-recorder.ts:177-183 | the receipt that an append adds, field by field |
| RuntimeContents.TerminalHolds | src/runtime-recorder.ts:185-201 | the terminal receipt pins status, count and head of the receipts before it |
| RuntimeContents.AppendRefusedFor | src/runtime-recorder.ts:177-183 | which append is refused, and for what |
| RuntimeContents.TerminalizeRefusedFor | src/runtime-recorder.ts:185-201 | which terminal is refused, and for what |
| RuntimeContents.EndRefusedFor | src/runtime-recorder.ts:119-267 | which finalize and which recovery is refused, and for what |
| RuntimeContents.FinalBundleHolds | src/runtime-recorder.ts:203-267 | the bundle that a run writes, field by field |
| RuntimeContents.VerifiedHolds | src/runtime-evidence.ts:218-284 | in every verified bundle the anchored statement names the finalization's digest, session, header, count and head, and finalization and anchor each name what they rest on |
| RuntimeContents.StatementFixesBundle | src/runtime-evidence.ts:567-600 | two verified bundles with one anchored statement have the same header, receipts and finalization |
| RuntimeContents.ReceiptHolds | src/runtime-evidence.ts:309-362 | every accepted receipt is linked, sealed and in both orders of time, and no occurrence comes twice |
| RuntimeContents.FileHolds | src/runtime-evidence.ts:434-448 | what an accepted file effect says of targets, states and bytes |
| RuntimeContents.ProcessHolds | src/runtime-evidence.ts:450-468 | exit code and signal decide the outcome of an accepted process receipt |
| Formats.SignalForm | src/runtime-evidence.ts:460-460 | signal names by character code |
| RuntimeContents.NetworkHolds | src/runtime-evidence.ts:470-484 | the bytes of an accepted network effect are those of its payload, and its protocol is known |
| RuntimeContents.CredentialHolds | src/runtime-evidence.ts:486-501 | an accepted credential receipt resolves and delivers scopes exactly if it allows them, under the header's policy |
| RuntimeContents.EffectHolds | src/runtime-evidence.ts:503-525 | an accepted side effect that was blocked has no response and leaves the state, and only a crash is recovered from |
| RuntimeTheorems.RecoverIsLive | src/runtime-recorder.ts:119-171 | rebuilding from header and journal gives the recorder back, terminal status included |
| RuntimeTheorems.CrashesAreInvisible | src/runtime-recorder.ts:147-302 | crashes in any run change no receipt, no refusal, no bundle and not the recorder at the end, exactly if none of them follows a successful finalize |
| RuntimeTheorems.CrashAfterFinalizeIsVisible | src/runtime-recorder.ts:147-148 | a run that ends, finalizes and crashes: recovery is refused and no recorder is left |
| RuntimeTheorems.EveryCutIsRecoverable | src/runtime-recorder.ts:147-171 | the journal cut at any append of any run recovers to exactly that journal |
| RuntimeTheorems.SideEffectHasOrigin | src/runtime-evidence.ts:341-341 | from every receipt a walk along sources descends to a receipt that is not a side effect |
| RuntimeTheorems.ProvenanceIsWellFounded | src/runtime-evidence.ts:324-353 | every such walk strictly descends, can be continued exactly from side effects, and in one way only |
| RuntimeTheorems.LeastPrivilege | src/runtime-evidence.ts:335-340 | every resolved scope was requested and declared, under the header's credential policy |
| RuntimeTheorems.TerminalPinsHistory | src/runtime-evidence.ts:342-347 | a terminal receipt is unique and last, and pins count and head of everything before it |
| RuntimeTheorems.BlockedTraceExactly | src/runtime-evidence.ts:434-513 | in an accepted journal what was blocked left bytes, changed content or state, a response, a credential or an exit exactly if it is a network send or receive with a payload |
| RuntimeTheorems.BlockedSendMayCarryBytes | src/runtime-evidence.ts:462-477 | an accepted journal with a blocked send of five bytes |
| RuntimeObjects.DurableRuntimeEvidenceRecorder.AppendBody | src/runtime-recorder.ts:177-183 | receipt list after append, with every refusal |
| RuntimeObjects.DurableRuntimeEvidenceRecorder.TerminalizeRun | src/runtime-recorder.ts:185-201 | receipt list and status after terminalize, with every refusal |
| RuntimeObjects.DurableRuntimeEvidenceRecorder.FinalizeRun | src/runtime-recorder.ts:203-267 | state and bundle after finalize |
| HttpJournal.ReceiptChainBlockers | src/mcp-http-evidence.ts:542-574 | the chain loop reports exactly the deserved blockers, none exactly for an accepted chain |
| HttpJournal.OutcomeBlockers | src/mcp-http-evidence.ts:603-635 | the consistency blockers of one outcome |
| HttpJournal.OutcomeOkExactly | src/mcp-http-evidence.ts:603-635 | which outcomes raise no blocker |
| HttpJournal.CountReceipts | src/mcp-http-evidence.ts:714-734 | the counting loop computes the recounted counters |
| HttpJournal.CountersCount | src/mcp-http-evidence.ts:714-734 | each recounted counter is the number of receipts of its kind |
| HttpRecorder.AppendExactly | src/mcp-http-evidence.ts:322-351 | a request is recorded exactly if its id is new and well-formed, its evidence and outcome pass, and the clock did not run backwards |
| HttpRecorder.FinalizeExactly | src/mcp-http-evidence.ts:353-390 | finalization succeeds exactly if it precedes neither creation nor the last receipt |
| HttpRecorder.CrashAnywhere | src/mcp-http-evidence.ts:296-316 | any durable prefix recovers, takes no further request, and finalizes to a verified bundle of exactly that prefix |
| HttpContents.AcceptedReceipt | src/mcp-http-evidence.ts:542-635 | every accepted receipt is linked, sealed, in time, of its own request, and its evidence and outcome obey their rules |
| HttpContents.RulesHold | src/mcp-http-evidence.ts:576-635 | the rules for evidence and outcomes, in both directions |
| HttpContents.VerifiedHolds | src/mcp-http-evidence.ts:637-734 | the finalization of every verified bundle names its header, head and count, and each counter is the number of receipts of its kind |
| HttpContents.FinalBundleHolds | src/mcp-http-evidence.ts:353-392 | the bundle that a session writes, field by field |
| HttpContents.RefusedFor | src/mcp-http-evidence.ts:322-392 | which append, finalize and recovery is refused, and for what |
| HttpRecorder.VerifyBundle | src/mcp-http-evidence.ts:436-468 | the bundle check reports nothing exactly for a verified bundle |
| HttpRecorder.McpHttpAccessRecorder.AppendRequest | src/mcp-http-evidence.ts:322-351 | receipt list after append, with every refusal |
| HttpRecorder.McpHttpAccessRecorder.FinalizeAccess | src/mcp-http-evidence.ts:353-390 | state and bundle after finalize |
| HttpProxy.HandlerOutcomesPass | src/mcp-http-proxy.ts:506-577 | every outcome a handler can build passes the journal's outcome check, and the counter it moves is the class of the outcome |
| HttpContents.TurnRecords | src/mcp-http-proxy.ts:308-584 | what each turn of a handler records, field by field, for every kind of request, fault and answer of the adapter, and the one counter it moves |
| HttpContents.ClassifyHolds | src/mcp-http-proxy.ts:586-617 | which fault is refused for which reason |
| HttpContents.EndingRecords | src/mcp-http-proxy.ts:308-504 | a request that ends is recorded exactly if its id is new and well-formed, its evidence passes and the clock did not step back; no other turn records anything |
| HttpProxy.AccountsAddUp | src/mcp-http-proxy.ts:308-503 | in every schedule the classes add up to the recorded requests, unauthorized and malformed agree with the journal's recount, and the tool counters differ by exactly the faulty requests recognised as calls |
| HttpProxy.FaultyToolCallCountsTwice | src/mcp-http-evidence.ts:714-734 | one request, its route known, that the journal counts both as malformed and as a blocked call |
| HashChain.SameHead | src/runtime-evidence.ts:319-352 | of two chains with one head the shorter is the end of the longer, and a proper end starts at a body hashing to the genesis value |
| JournalChains.GatewayHeadDeterminesHistory | src/gateway-verify.ts:60-75 | accepted gateway bundles with one head hold the same frames |
| JournalChains.StdioHeadDeterminesHistory | src/mcp-stdio-evidence.ts:571-604 | accepted stdio journals with one head are equal, unless one is empty and some receipt hashes to the genesis value |
| JournalChains.RuntimeHeadDeterminesHistory | src/runtime-evidence.ts:324-352 | accepted runtime journals with one head are equal, and so are their headers, unless one is empty and some receipt hashes to the genesis value |
| HttpJournal.HttpHeadDeterminesHistory | src/mcp-http-evidence.ts:547-572 | accepted HTTP journals with one head are equal, unless one is empty and some receipt hashes to the genesis value |
| PackChain.LinkDigestIdentifies | src/proof-pack.ts:131-131 | but for collisions on texts, two links with one digest follow one head and hold one episode |
| PackChain.LinkIsNotSeed | src/proof-pack.ts:118-131 | no link has the digest of the seed, their texts being different |
| ProofPackTheorems.PackHeadDeterminesEpisodes | src/proof-pack.ts:118-137 | the unnumbered chain's head determines all its episodes, however many |
| ProofPackTheorems.AcceptedPacksWithOneHead | src/proof-pack.ts:118-137 | accepted packs with one declared head hold the same frames |
| SseParser.ParseSse | src/ag-ui.ts:517-526 | the whole-text loop returns the events of all segments in order, or the first refusal |
| SseParser.ParseSseStream | src/ag-ui.ts:528-555 | the streaming loops yield the events, and throw the refusal, of the fold over chunks |
| SseTheorems.StreamReadsExactly | src/ag-ui.ts:528-555 | for every cutting of every text, the stream reads exactly the segments of the text in which each chunk is rewritten with what waits, or is refused since a waiting buffer grew over the limit |
| SseTheorems.ChunkingDoesNotMatter | src/ag-ui.ts:517-555 | for every cutting of any text whose waiting buffers fit and keep no CR LF, the stream reads the same events and the same refusal as the whole text |
| SseTheorems.CrCrLfFreeIsSettled | src/ag-ui.ts:535-536 | no cutting of a text without CR CR LF leaves a CR LF waiting |
| SseTheorems.StreamAcceptsExactly | src/ag-ui.ts:528-555 | the stream is read without refusal if and only if the whole text is and every waiting buffer fits |
| SseTheorems.SmallSegmentsFit | src/ag-ui.ts:546-548 | if every segment is two bytes below the frame limit, every cutting fits |
| SseTheorems.SegmentAtLimitRefusedInStream | src/ag-ui.ts:546-548 | a text whose segments are within the limit, read as a whole but refused in one cutting |
| SseTheorems.CrCrLfRefusedInStream | src/ag-ui.ts:535-536 | a text with CR CR LF, read as a whole but refused in one cutting |
| SseTheorems.IdsAreUnique | src/ag-ui.ts:570-574 | no event id is delivered twice |
| SseTheorems.BlockReadExactly | src/ag-ui.ts:557-584 | a block is read as an event with this id and data if and only if it is just an id line and a data line in either order, within the limit, the id new, not empty and without a line end, the data accepted |
| SseForms.BlockRefusal | src/ag-ui.ts:557-569 | a block is too large, or has the wrong shape, exactly when |
| SseForms.BlockRefusalOf | src/ag-ui.ts:570-583 | which of the later refusals a block of the right shape meets |
| SseForms.SegmentTaken | src/ag-ui.ts:520-523 | which segments are skipped, and what reading any other adds |
| SseForms.NormalizedDropsCr | src/ag-ui.ts:519-519 | the rewrite drops each carriage return before a line feed and nothing else |
| SseForms.SegmentsTakeFirst | src/ag-ui.ts:519-519 | every blank line separates as soon as it comes: no segment holds one, and none but the last ends with a line feed |
| SseForms.SegmentsJoin | src/ag-ui.ts:519-519 | and joined by blank lines the segments are the text |
| SseForms.TrimKeeps | src/ag-ui.ts:520-520 | trimming takes white space from both ends and all of it |
| SseForms.WhiteUnits | src/ag-ui.ts:520-520 | which units are white space |
| SseForms.LengthOfBytes | src/ag-ui.ts:546-548 | the length compared with the limit is that of the UTF-8 bytes |
| CanonicalTheorems.NormalizeValue | src/canonical.ts:22-44 | the recursive loops give the normal form or the first error in key order |
| CanonicalTheorems.NormalizeIsIdempotent | src/canonical.ts:22-44 | normalizing twice is normalizing once |
| CanonicalValues.NormalIsCanonical | src/canonical.ts:22-44 | a normal form is finite, without negative zero, with keys strictly in order all the way down |
| CanonicalTheorems.CanonicalJsonParses | src/canonical.ts:46-48 | parsing the canonical text of a value gives its normal form |
| CanonicalTheorems.CanonicalJsonIdentifies | src/canonical.ts:46-48 | two values have one canonical text if and only if they are the same up to key order and the sign of zero |
| CanonicalForms.RefusalNamesFirstFault | src/canonical.ts:22-44 | a value is refused exactly if something in it is no JSON value, and the error names the first such place in the order of indices and sorted keys, with its kind |
| CanonicalTheorems.RefusalForgetsOrder | src/canonical.ts:22-44 | insertion order changes neither the text nor the error |
| CanonicalTheorems.CanonicalIsWellFormed | src/canonical.ts:46-48 | a canonical text holds no lone surrogate, whatever strings it carries |
| CanonicalTheorems.DigestIdentifies | src/canonical.ts:54-56 | but for collisions on well-formed texts the digest identifies the value |
| JsonText.ParseEncoded | src/canonical.ts:46-48 | every plain value reads back from its text |
| JsonStrings.ReadEscaped | src/canonical.ts:46-48 | every string, lone surrogates included, reads back from its literal |
| JsonNumbers.ReadShown | src/canonical.ts:25-29 | every finite number reads back from its shortest text, a negative zero as zero |
| JsonForms.WholeNumberText | src/canonical.ts:46-48 | a whole number below 10^21 is written as its sign and its decimal digits alone |
| JsonForms.FractionText | src/canonical.ts:46-48 | a fraction of at least 10^-6 and below 10^21 is written with digits on both sides of one point and no exponent |
| JsonForms.ExponentText | src/canonical.ts:46-48 | every other number is written with one digit before its point and one exponent |
| JsonForms.NaturalText | src/canonical.ts:46-48 | decimal digits, most significant first, without a leading zero |
| JsonForms.ZeroText | src/canonical.ts:26-26 | zero has no sign |
| JsonForms.EscapeForms | src/canonical.ts:46-48 | short escapes for seven units, four lower-case hexadecimal digits for the other controls and for surrogates that stand alone, every other unit as it is |
| JsonForms.LiteralForms | src/canonical.ts:46-48 | pairs of surrogates stay, any other unit is escaped on its own, between quotation marks |
| JsonForms.WellFormedMeans | src/canonical.ts:50-52 | the texts that UTF-8 keeps: every high surrogate is followed by a low one, and every low one follows a high one |
| JsonForms.ValueForms | src/canonical.ts:46-48 | the words, and empty arrays and objects |
| JsonForms.ItemForms | src/canonical.ts:46-48 | how the items of an array are bracketed and separated |
| JsonForms.MemberForms | src/canonical.ts:46-48 | how the members of an object are bracketed, named and separated |
| CanonicalOrder.CompareDecides | src/canonical.ts:12-14 | the comparison is zero for equal strings only, and antisymmetric |
| CanonicalForms.BeforeMeans | src/canonical.ts:12-14 | where two texts first differ the smaller unit decides, and a proper prefix comes first |
| CanonicalOrder.StrictOrderIsGlobal | src/canonical.ts:16-20 | neighbours in strict order put every pair in strict order |
| StdioProxySafety.LogBeforeAct | src/mcp-stdio-proxy.ts:284-331 | in every run a tools/call line reaches the child only after its allowed authorization is durable, at most once, and never for a blocked request |
| StdioProxySafety.ReturnedIsClosed | src/mcp-stdio-proxy.ts:245-264 | a returned invocation ended its transaction with the returned disposition; a completed one rests on a result reply carrying its own id |
| StdioProxySafety.OneExchangeAtATime | src/mcp-stdio-proxy.ts:313-331 | at most one exchange is pending, and nothing is pending when a call is about to be written |
| StdioProxySafety.PersistedCallReturns | src/mcp-adapter.ts:169-283 | the journal never refuses the end of a call for what it says, only for its clock: whatever happens, a persisted call whose end the SDK records returns and is closed |
| StdioProxyResults.ReturnedDisposition | src/mcp-adapter.ts:169-283 | what a settled call that ends comes to, from reply, session and SDK: an identity mismatch exactly if one was recorded on a valid answer, a protocol failure exactly if that was, a completion exactly for a recorded result, and a tool failure otherwise; its terminal receipt says the same |
| StdioProxyResults.BlockedReceipts | src/mcp-stdio-proxy.ts:245-264 | a blocked operation that returns has recorded its blocked authorization and its refusal, and sends nothing |
| StdioProxyResults.DispatchedLine | src/mcp-stdio-proxy.ts:284-331 | exactly when a call is written, and what its authorization names |
| StdioProxyTurns.NewStateHolds | src/mcp-stdio-proxy.ts:120-158 | the proxy starts with nothing queued, running, pending, written or recorded, and open for invocations |
| StdioProxyTurns.MessageHolds | src/mcp-stdio-proxy.ts:333-498 | what each message of the child does to the pending exchange and to the session |
| StdioProxyTurns.RejectionHolds | src/mcp-stdio-proxy.ts:500-506 | timeouts, failed writes and the exit reject what is pending and nothing else |
| StdioProxyTurns.InterruptHolds | src/mcp-stdio-proxy.ts:179-188 | when an interrupt notifies the child, and that it fails the session |
| StdioProxyTurns.StartHolds | src/mcp-stdio-proxy.ts:215-244 | which invocation starts, and how |
| StdioProxyTurns.DiscoveryHolds | src/mcp-stdio-proxy.ts:219-226 | when a discovery's exchange is written, and whether its call starts |
| StdioProxyTurns.DecidedHolds | src/mcp-adapter.ts:131-167 | what the start of an operation leaves in the SDK recorder |
| StdioProxyTurns.EndedHolds | src/mcp-adapter.ts:169-283 | what its end leaves there |
| StdioProxyTurns.CloseHolds | src/mcp-stdio-proxy.ts:190-213 | the SDK recorder's refusals of close, and otherwise the access recorder's finalize |
| StdioProxyClosing.CloseVerifiesExactly | src/mcp-stdio-proxy.ts:190-213 | close writes a verified access bundle exactly if the SDK recorder has no open operation and, once made, an ended one, no transaction is open, and the clock did not run backwards; whatever is open or missing was left by an invocation that threw |
| StdioProxyClosing.EmptySdkBlocksClose | src/sdk.ts:418-421 | the only invocation threw before its operation began: no transaction is open, and close is refused |
| StdioProxyClosing.OpenOperationBlocksClose | src/sdk.ts:418-421 | the journal refused the only authorization and the SDK its failure: no transaction is open, and close is refused |
| StdioProxyObject.AuthenticatedMcpStdioProxy.OnExit | src/mcp-stdio-proxy.ts:160-165 | an exit of the child rejects what is pending |
| StdioProxyObject.AuthenticatedMcpStdioProxy.InterruptSession | src/mcp-stdio-proxy.ts:179-188 | an interrupt notifies a running call's child, if it can, and fails the session |
| StdioProxyObject.AuthenticatedMcpStdioProxy.OnClosed | src/mcp-stdio-proxy.ts:190-213 | the SDK recorder's refusal, or the access recorder's finalize |
| StdioProxyObject.AuthenticatedMcpStdioProxy.OnDecision | src/mcp-adapter.ts:131-167 | block, or authorize and write, or throw, as the step function says |
| StdioProxyObject.AuthenticatedMcpStdioProxy.DispatchCall | src/mcp-stdio-proxy.ts:284-331 | authorization, then the pending slot, then the one write |
| StdioProxyObject.AuthenticatedMcpStdioProxy.OnMessage | src/mcp-stdio-proxy.ts:459-498 | what each kind of child message does to the pending exchange and the session |
| StdioProxyObject.AuthenticatedMcpStdioProxy.OnSettled | src/mcp-stdio-proxy.ts:245-264 | the terminal receipt and the result, or the exception |
| StdioSession.ReadChunk | src/mcp-stdio-proxy.ts:459-466 | the framing loop takes complete lines until none is left or a handler fails |
| StdioSession.FramingForgetsChunks | src/mcp-stdio-proxy.ts:459-466 | the lines framed depend on the bytes received only, however they were cut |
| StdioSession.NoLineLostOrRepeated | src/mcp-stdio-proxy.ts:459-466 | whatever fails, the lines handled are the first of the input, in order, and the others are still in the buffer |
| StdioSession.FailsOnlyOverLimit | src/mcp-stdio-proxy.ts:461-462 | with a handler that takes every line, framing fails exactly if some chunk makes the buffer exceed the limit |
| StdioSession.LinesRebuild | src/mcp-stdio-proxy.ts:463-467 | the lines, each ended by a line feed, and the unfinished rest are the input, and no line holds a line feed |
| StdioSession.DiscoverTools | src/mcp-stdio-proxy.ts:409-444 | the page loops and the refresh compute the discovery outcome |
| StdioSession.DiscoveryIsBoundedAndPinned | src/mcp-stdio-proxy.ts:409-444 | at most eight requests, and a return only after a full pass without a catalog change that listed every configured tool with its pinned schema |
| StdioDiscovery.PassExactly | src/mcp-stdio-proxy.ts:409-431 | a pass over the pages succeeds, with this catalog, exactly if its pages are at most four, of at most 256 well-formed tools with distinct names and linked by fresh cursors, and the catalog is just what they list |
| StdioDiscovery.DiscoveredExactly | src/mcp-stdio-proxy.ts:409-444 | discovery succeeds exactly if a pass confirms the pins while nothing changes, or one does while something changes and the next confirms them while nothing does |
| Egress.ParsedUsageOk | src/provider-adapters.ts:133-194 | a parsed usage is refused later only because a sum of counts left the safe integers |
| Egress.ReadLimitedBody | src/http-egress.ts:646-669 | exactly the concatenated chunks, or a refusal decided by their total length |
| EgressTheorems.BeginOutcome | src/http-egress.ts:211-259 | the transport starts only with verified identity, an allowing policy and a configured route to the requested URL, after its decision is recorded; a refusal closes its attempt |
| EgressTheorems.ReleasedOnlyWithSuccess | src/http-egress.ts:316-347 | a body is released only from a conforming 2xx reply of the route's own URL within its limit, with the recorded success that pins body and requested model |
| EgressTheorems.ReturnedAsRecorded | src/http-egress.ts:281-361 | every returned disposition is the outcome of the one frame recorded for it, and the reply alone decides which: nonconforming, foreign or oversized, non-2xx, unusable, another model, or the requested one |
| EgressContents.ReplyRecorded | src/http-egress.ts:267-361 | what a dispatch returns and records for every reply, field by field: outcome, failure code, model, the usage from the counts of each provider's answer, status and response digest |
| EgressContents.RequestRecorded | src/http-egress.ts:228-259 | what a dispatch records of its request, and that the transport starts exactly with identity, policy and a route of its provider, target and media type |
| EgressContents.RouteFound | src/http-egress.ts:370-382 | the route is the first that matches, if any does |
| EgressTheorems.ThrowsExactly | src/http-egress.ts:260-361 | for every reply and clock a dispatch throws with its attempt open exactly for an informational status, an unpinned model or an unsafe usage; throws with its attempt closed and never answered exactly if otherwise its readings or numbers do not fit; and else returns, closed, with one action recorded |
| GatewayInstances.FirstDispatchLeaves | src/http-egress.ts:260-361 | a first dispatch that gets an early-hints reply, or during which the clock steps back, leaves by exception with its attempt open, or closed and unanswered |
| EgressTheorems.TransportOnceAfterDecision | src/http-egress.ts:211-361 | over any interleaving: one transport at most for each attempt, after its recorded allowed decision; two frames for every attempt but those in flight or left by an exception |
| EgressObject.LocalHttpEgressDispatcher.BeginDispatch | src/http-egress.ts:211-259 | the first half of dispatch on the shared recorder and its fresh attempt |
| EgressObject.LocalHttpEgressDispatcher.ResumeDispatch | src/http-egress.ts:260-361 | the second half of dispatch, ending the attempt |
| EgressObject.LocalHttpEgressDispatcher.ChooseClosing | src/provider-adapters.ts:78-131 | which terminal call each reply leads to |
| Loopback.AcceptedCount | src/credentialless-runtime.ts:503-511 | in every schedule accepted = explicit + native, and the frame count is twice accepted exactly if no dispatch is in flight or was left by an exception |
| Loopback.NativesNeverShareAnId | src/credentialless-runtime.ts:555-618 | at most one native attempt is in flight or left, and no two attempts record the same id and number |
| LoopbackContents.TurnCounts | src/credentialless-runtime.ts:555-618 | which counter each turn moves, and no other |
| LoopbackContents.NewGatewayHolds | src/credentialless-runtime.ts:531-555 | the gateway starts with nothing counted, waiting, sent or recorded |
| LoopbackContents.RecordedUnder | src/credentialless-runtime.ts:582-618 | a native request is recorded as a first attempt under the runtime's id and one more than the natives counted, an explicit envelope as it says |
| LoopbackNatives.NativeRefusedExactly | src/gateway.ts:336-349 | a native request is refused as a duplicate exactly if some attempt, native or explicit, ended or not, was recorded as attempt 1 under the next native id |
| LoopbackNatives.RunServes | src/credentialless-runtime.ts:555-618 | in every schedule every recorded decision belongs to an attempt the gateway holds, and the counts and ids stay consistent |
| LoopbackNatives.NativesWedgedExactly | src/credentialless-runtime.ts:582-618 | no continuation accepts a native request exactly if the next native id is held by an attempt that is no native one in flight, or is no id |
| LoopbackNatives.ExceptionWedgesNatives | src/credentialless-runtime.ts:582-618 | a native dispatch left by an exception leads there |
| LoopbackNatives.ExplicitEnvelopeWedgesNatives | src/credentialless-runtime.ts:627-641 | so does every explicit envelope under the next native id, as attempt 1, whose content passes, whether blocked or dispatched |
| LoopbackNatives.FirstEnvelopeWedgesNatives | src/credentialless-runtime.ts:775-820 | such an envelope as the first request of all, blocked since its workload's identity is refused |
| ActorGraph.AnalyzeSdkActorGraph | src/actor-graph.ts:70-195 | the pass over maps and shared mutable rows, each depth its parent's plus one, reports exactly the specified graph if every decision has an action and a parent, if any, declared before it, and otherwise the first fault |
| ActorGraph.MapOperations | src/actor-graph.ts:78-78 | byOccurrence holds exactly the decisions, each under its occurrence |
| ActorGraph.MapIndices | src/actor-graph.ts:84-86 | frameIndices holds the last position of every kind and occurrence |
| ActorGraph.UpdateRows | src/actor-graph.ts:119-166 | of the shared rows the operation's own is stepped, across actors the parent's gains one outbound edge, and no other changes |
| ActorGraph.Visit | src/actor-graph.ts:119-166 | one decision updates its own actor's row, and across actors its parent's, and no other |
| ActorGraphTheorems.DepthIsChainLength | src/actor-graph.ts:126-165 | from every operation the parents lead to a root in exactly its recorded depth |
| ActorGraphTheorems.ChainsAgree | src/actor-graph.ts:126-165 | and along one chain only: parentage is a forest |
| ActorGraphTheorems.GraphConserves | src/actor-graph.ts:168-194 | actors' operations, roots, inbound and outbound edges add up to the totals, roots plus edges are the operations, the deepest actor is as deep as the graph |
| ActorGraphTheorems.RowCounts | src/actor-graph.ts:119-147 | an actor's row counts exactly the operations that name it, its roots, and the cross-actor edges that end or start in one of them |
| ActorGraphTheorems.RowDepthIsMaximum | src/actor-graph.ts:126-166 | its depth is that of its deepest operation |
| ActorGraphContents.ActorsHold | src/actor-graph.ts:119-183 | one row for each actor, in strict order, with just its principals, its operations and those dispatched, its roots and its edges |
| ActorGraphContents.EdgesCross | src/actor-graph.ts:143-147 | the edges counted for an actor are those between operations of two actors |
| ActorGraphContents.ReportEdges | src/actor-graph.ts:126-164 | one edge for each operation that names a parent, with both occurrences, both actors, and how and when the parent ended |
| ActorGraphContents.DecisionsInOrder | src/actor-graph.ts:77-77 | the operations are those of the decision frames, each once and in order |
| ActorGraphContents.ActionsAreLast | src/actor-graph.ts:79-86 | the end of an occurrence is what its last action frame says |
| ActorGraphSnapshot.AssertFrameSnapshotMatchesVerification | src/actor-graph.ts:236-260 | passes exactly for a well-linked snapshot of the session with the verified count and head |
| ActorGraphSnapshot.SnapshotIsVerifiedBundle | src/actor-graph.ts:231-260 | a snapshot that passes is the verified sequence of frames |
| ProofPack.VerifyProofPack | src/proof-pack.ts:104-165 | reports exactly the deserved chain, episode and aggregate blockers |
| ProofPack.BucketBy | src/proof-pack.ts:224-236 | the grouping loop gives one aggregate for each label, in label order |
| ProofPack.Derive | src/proof-pack.ts:223-263 | the loops give the aggregates that manifests are checked against |
| ProofPackTheorems.BucketsPartition | src/proof-pack.ts:224-236 | for any grouping the buckets' attempts and exploits add up to the totals |
| ProofPackTheorems.HistogramCountsExploits | src/proof-pack.ts:237-248 | the magnitude histogram counts every exploit once |
| ProofPackTheorems.HistogramRanges | src/proof-pack.ts:237-248 | each bar counts exactly the exploits whose score lies in its range |
| ProofPackTheorems.DensityAmongBuckets | src/proof-pack.ts:265-276 | the overall density lies in [0, 1000] and between two bucket densities of any grouping |
| ProofPackTheorems.AcceptedAggregates | src/proof-pack.ts:138-156 | an accepted pack's declared groupings partition its frames, and its exploits are exactly the episodes where the judge passed what the oracle knew to be wrong |
| ProofPackContents.AcceptedContents | src/proof-pack.ts:127-276 | every number of an accepted pack is the one its episodes give: counts, densities to one place, total cost to four, one bucket for each rung, transform and benchmark label in order, and the histogram |
| ProofPackContents.AcceptedExactly | src/proof-pack.ts:104-165 | a pack is accepted exactly if it has frames, each linking the one before, its episodes are in range and exploits are fooled judges, and the manifest declares the last head and what the episodes give |
| ProofPackContents.AcceptedChain | src/proof-pack.ts:116-136 | every frame's digest is the hash of its link text, and the manifest declares the last |
| ProofPackContents.CostAdds | src/proof-pack.ts:253-253 | the cost of a sequence of episodes is the sum over its parts |
| ProofPackContents.LinkForm | src/proof-pack.ts:130-130 | the text that a link hashes |
| ProofPackContents.SeedForm | src/proof-pack.ts:118-118 | the text that the chain starts from |
| ProofPackTheorems.RoundUnitsIsNearest | src/proof-pack.ts:278-287 | rounding gives the nearest integer, the even one on a tie |
| ProofPackTheorems.RoundHalfEvenIsNear | src/proof-pack.ts:278-287 | rounding to places is off by at most half a unit of the last place |
| ProofPackTheorems.RoundHalfEvenIsMonotone | src/proof-pack.ts:278-287 | rounding is monotone |
| Governance.EvaluateGovernanceRoute | src/governance-router.ts:107-187 | refuses invalid or misdigested inputs, else collects exactly the deserved blockers and decides by them |
| Governance.CeilDivideIsLeast | src/governance-router.ts:286-288 | the least quotient that covers the dividend |
| Governance.CostTestIsExact | src/governance-router.ts:146-154 | the cost test holds exactly if spend is within the allowance for all accepted results, and its quotient is safe |
| Governance.DispositionIsMonotone | src/governance-router.ts:113-176 | of two evaluations the one with higher value, reliability, caps or results, or an added approval, is never stricter |
| Governance.BudgetIsConserved | src/governance-router.ts:115-121 | over any run with spend carried forward that is not refused, earlier spend, the run's spend and what remains are the stage cap |
| Governance.BudgetRefusal | src/governance-router.ts:126-128 | a run is blocked for its budget exactly when it overdraws the cap |
| Governance.DecisionHolds | src/governance-router.ts:107-187 | disposition, remaining budget and cost of a decision in the numbers of policy and request, the diagnostic budget for the diagnostic stage and the panel budget for the panel stage |
| Governance.BlockersHold | src/governance-router.ts:113-176 | each blocker in those numbers |
| Governance.InputRules | src/governance-router.ts:189-284 | which policies and requests are evaluated |

## Left out

- File descriptors, fsync, rename, sockets, child processes and timers: only "durable once it returned", "a prefix survives" and nondeterministic events remain.
- Schema and coverage constants, key sets, the runtime version text, JSON parsing of files and the checks for canonical bytes of a line: equality with constants.
- Secret scanning of evidence, credential headers, capability comparison, response headers: not part of the accounts and protocols modelled.
- sdk.ts, sdk-verify.ts, policy.ts, workload-identity.ts and managed identity: their answers are parameters of the steps that ask them; of the SDK recorder only its counts of open and ended operations are modelled; session initialisation of the stdio proxy precedes the modelled runs, and the session journal's own end is left out.
- StdioProxy.Receive: in the sessionless mode the output buffer is not modelled, a child message arrives as one parsed line or as unacceptable output.
- StdioRecorder.Finalize: the order in which a recovered session closes its open transactions (a locale-dependent sort) is a parameter; the theorems hold for every order.
- SseParser.ParseSseStream: chunks are strings; byte chunks pass a text decoder that is not modelled.
- CanonicalValues.Normalize: keys that read as array indices and the key `__proto__`, which the host enumerates or stores differently, are not meant; neither are getters, symbol keys and sparse arrays.
- JsonNumbers.ReadNumeral: reads exact decimals; rounding of numerals that are not the shortest text of a double is not modelled, canonical texts contain none.
- ProofPack.Frame: a frame has all its fields; without one the encoder throws before any blocker is reported.
- ProofPack.RoundHalfEven: exact rationals with exact ties; the floating-point tolerance around a tie is not modelled. Digest and identity fields of the manifest are not modelled.
- ActorGraph.ReportOf: edges stay in decision order, the final sort of the edge list is left out; that the bundle is verified is a precondition of which distinct occurrences are used.
- Egress.Begin: building the sorted list of policy reasons is left out, the list is a parameter.
- HttpProxy.Next: reading, parsing and header checks of a request come as the outcome they lead to.
- Container, bypass, SDK-route and Kubernetes receipts, catalogs, doctor, compare, inspect, readiness, remote anchor, command line, formatting and upload: field-by-field equality or text.
