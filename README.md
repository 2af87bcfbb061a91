# ot-node command pipeline: a Dafny model

This project models the core of the OriginTrail node's protocol pipeline.
That core is six pieces of code, each written as a command, controller or
storage helper:

- **Epoch check** (`EpochCheckCommand`). Per agreement and epoch, it marks an expired agreement, re-enqueues itself while the commit window is closed, and chooses between calculating proofs and submitting a commit.
- **Proof submission** (`SubmitProofsCommand`). It fetches the challenge and the assertion, skips the send when this node already has a finalized (score 0) commit, sends the proof, and waits on the transaction callback.
- **Assertion-id resolution** (`GetAssertionIdCommand`). It maps a requested state (`LATEST`, `LATEST_FINALIZED` or an explicit hash) to an assertion id, or refuses it.
- **Bid validation at publish start** (`PublishScheduleMessagesCommand`). It computes the agreement's bid per node with BigNumber arithmetic and refuses the publish when too few neighbours ask for at most that bid.
- **Update request handling** (`UpdateController.handleUpdateRequest`). It writes the ordered status updates and builds the command sequence and descriptor; anything that throws inside its try block sets a FAILED status.
- **Triple-store helpers** (`OtTripleStore`):
  - the escaper for assertion ids;
  - the insert-if-absent guard and the other operations on assertion graphs;
  - the per-repository query and update contexts;
  - the bounded connection retry loop.

## How the model is built

Everything a command does to the outside world is an `Effect`: a read of the blockchain or the triple store, a status write, an enqueued command descriptor, an emitted event, or a sent proof. An `EffectLog` object records these effects in order.

Each `execute` has two parts:

- A pure specification function, `Outcome`. It gives the effects and the result: `Command.empty()`, `continueSequence` or a rejection.
- An imperative method, `Execute`. It appends to the log one step at a time, and is proved to append exactly `Outcome(...).effects` and to return `Outcome(...).result`.

The properties of the source are lemmas about `Outcome`.

Collaborators are modelled this way:

- Answers from the blockchain and the triple store are given in a per-command `ChainView` record.
- Opaque computations are function-typed parameters: `getMerkleProof`, `convertToWei`, and the triple store's health checks.
- The clock (`Date.now()`), `calculateScore()`, `COMMAND_RETRIES.SUBMIT_PROOFS` and `TRIPLE_STORE_CONNECT_MAX_RETRIES` are parameters.

The model follows the code as written, including where it departs from what the protocol evidently intends:

- **Expiry.** An agreement is expired iff `epochsNum < epoch`, which is strict. It reads the field `epochsNum` and compares false when that field is missing. The agreement's lifetime is meant to end after its last epoch; the code reads a field the agreement record does not have.
- **The next epoch check** is enqueued for `epoch + 1`, with delay `startTime + epochLength * epoch - now`, that is, the start of epoch `epoch`. A check that waits for the window of the same epoch to open would re-enqueue `epoch`.
- **The two `forEach` scans** in `alreadyCommitted` and `getPreviousIdentityIdAndRank` discard their callbacks' return values. As a result, `alreadyCommitted` is always false, the rank is always 0 and the previous identity is always `''`. The `calculateProofsCommand` branch is never taken, and a commit is submitted iff `0 < R1`. The callbacks are written to find this node's commit and its rank among the commits.
- **An explicit state that is not on chain** does not reach `handleError`. Its error message is two adjacent template literals, which JavaScript parses as a tagged template whose tag is a string, so the argument itself throws a `TypeError`. The model ends that path as `Fails(TypeError(...))` without marking the operation failed. The call is written to mark the operation failed and end the command empty.
- **Ids with special characters.** The existence check and the read embed the escaped id in an IRI. Every escaped special character carries a backslash, and SPARQL admits no backslash in an IRI (production [139] IRIREF of the SPARQL 1.1 Query Language grammar), so for such an id these queries fail to parse and the call rejects.

## Model

| member | source | states |
|---|---|---|
| Commands.Defaults | src/commands/protocols/publish/receiver/epoch-check-command.js:126-134 | `default(map)`: the command has its own name, delay 0 and is not transactional unless `map` overrides them; every key of `map` wins; no other key appears |
| EpochCheck.Outcome | src/commands/protocols/publish/receiver/epoch-check-command.js:12-78 | the effects and result of `execute`, step by step: the agreement read when the data has none, EXPIRED and stop, the window read, then a re-enqueue or the commit-or-prove branch |
| EpochCheck.Execute | src/commands/protocols/publish/receiver/epoch-check-command.js:12-78 | `execute` appends exactly the effects of `Outcome` to the log, in order, and returns its result |
| EpochCheck.CommitOrProve | src/commands/protocols/publish/receiver/epoch-check-command.js:43-77 | with the window open: read the commits, read the identity only when the data has none, then enqueue proof calculation or (after reading R1) a commit, as `OpenWindowEffects` says |
| EpochCheck.ScheduleNextEpochCheck | src/commands/protocols/publish/receiver/epoch-check-command.js:100-115 | `scheduleNextEpochCheck` appends exactly one enqueue, the descriptor of `NextEpochCheck` |
| EpochCheck.Default | src/commands/protocols/publish/receiver/epoch-check-command.js:126-134 | the command's `default(map)` is `Commands.Defaults` with the name `epochCheckCommand`: delay 0, not transactional, overrides win, no other key |
| EpochCheck.ReversedReversed | src/commands/protocols/publish/receiver/epoch-check-command.js:83 | `[...commits].reverse()` reversed again gives back the commits |
| EpochCheck.AgreementFetchedOnlyWhenAbsent | src/commands/protocols/publish/receiver/epoch-check-command.js:15-21 | the chain's agreement is read iff the data carries none, and every enqueued command carries the agreement actually used |
| EpochCheck.AssetLifetimeExpired | src/commands/protocols/publish/receiver/epoch-check-command.js:117-119 | `assetLifetimeExpired`: `epochsNum < epoch`, false when `epochsNum` is missing |
| EpochCheck.ExpiryIsStrict | src/commands/protocols/publish/receiver/epoch-check-command.js:117-119 | the last epoch (`epochsNum == epoch`) is not expired, the next one is, and an agreement without `epochsNum` never expires |
| EpochCheck.ExpiredMarksAndStops | src/commands/protocols/publish/receiver/epoch-check-command.js:23-30 | an expired agreement ends with status EXPIRED as the last effect, the command ends empty, the window is not queried and nothing is enqueued |
| EpochCheck.ClosedWindowReschedules | src/commands/protocols/publish/receiver/epoch-check-command.js:38-41 | a closed window enqueues exactly one `epochCheckCommand`, for `epoch + 1`, delayed by `startTime + epochLength * epoch - now`, whose data has exactly blockchain, agreementId, epoch and serviceAgreement |
| EpochCheck.AlreadyCommitted | src/commands/protocols/publish/receiver/epoch-check-command.js:91-98 | `alreadyCommitted`: a `forEach` over the commits whose callback's value is discarded, then `false` |
| EpochCheck.AlreadyCommittedIsFalse | src/commands/protocols/publish/receiver/epoch-check-command.js:91-98 | `alreadyCommitted` answers false for every commit list and identity, even one that contains the identity |
| EpochCheck.PreviousIdentityIdAndRank | src/commands/protocols/publish/receiver/epoch-check-command.js:80-89 | `getPreviousIdentityIdAndRank`: the `forEach` over the reversed commits, then `{prevId: '', rank: 0}` |
| EpochCheck.RankIsAlwaysZero | src/commands/protocols/publish/receiver/epoch-check-command.js:80-89 | `getPreviousIdentityIdAndRank` answers `('', 0)` for every commit list and score |
| EpochCheck.RankScanIsEmpty | src/commands/protocols/publish/receiver/epoch-check-command.js:83-87 | the rank `forEach` from any index falls through to `('', 0)` |
| EpochCheck.NeverCalculatesProofs | src/commands/protocols/publish/receiver/epoch-check-command.js:54-63 | no path enqueues `calculateProofsCommand` |
| EpochCheck.SubmitCommitIffR1Positive | src/commands/protocols/publish/receiver/epoch-check-command.js:66-77 | with the window open, exactly one command is enqueued iff `0 < R1`; it is `submitCommitCommand` with delay 0, empty sequence and the data plus `prevId ''`, the agreement and the identity; the data's own identity takes precedence over the chain's |
| EpochCheck.OpenWindowCarriesAgreement | src/commands/protocols/publish/receiver/epoch-check-command.js:43-77 | with the window open nothing re-reads the agreement, and every enqueued command carries the agreement in use |
| EpochCheck.OpenWindowSubmitsIffR1Positive | src/commands/protocols/publish/receiver/epoch-check-command.js:66-77 | with the window open one command is enqueued iff `0 < R1`, and it is the commit submission, last |
| EpochCheck.AlwaysEmptyAtMostOneEnqueue | src/commands/protocols/publish/receiver/epoch-check-command.js:12-78 | every path returns `Command.empty()` and enqueues at most one command |
| EpochCheck.ClosedWindowScenario | src/commands/protocols/publish/receiver/epoch-check-command.js:100-115 | start 1000, epoch length 600, epoch 2, window closed: the check is re-enqueued for epoch 3 with delay `2200 - now` |
| SubmitProofs.ScanForFinalizedCommit | src/commands/protocols/common/submit-proofs-command.js:155-161 | the loop answers true iff some commit has this identity and score exactly 0 |
| SubmitProofs.ProofAlreadySubmitted | src/commands/protocols/common/submit-proofs-command.js:146-162 | reads the top commits and the identity, in that order, and answers whether a finalized commit of this identity exists |
| SubmitProofs.SettleFirstWins | src/commands/protocols/common/submit-proofs-command.js:106-124 | the promise around `sendProof` settles once: after the first `resolve` or `reject` it is settled, and any later one leaves it as it is |
| SubmitProofs.Callback | src/commands/protocols/common/submit-proofs-command.js:117-122 | the transaction callback: `reject(error)` when there is an error, then `resolve()` |
| SubmitProofs.CallbackSettlesOnce | src/commands/protocols/common/submit-proofs-command.js:117-122 | a callback with an error leaves the promise rejected with it (the later `resolve()` is ignored); without one it resolves |
| SubmitProofs.Outcome | src/commands/protocols/common/submit-proofs-command.js:23-144 | the effects and result of `execute`, step by step: the start events on the first attempt, the challenge and assertion reads, the finalized-commit guard, the send and the callback |
| SubmitProofs.Execute | src/commands/protocols/common/submit-proofs-command.js:23-144 | `execute` appends exactly the effects of `Outcome` to the log, in order, and returns its result |
| SubmitProofs.FetchChallengeAndAssertion | src/commands/protocols/common/submit-proofs-command.js:45-66 | on the first attempt the calculation-start event, then the challenge read and the assertion read; answers what the chain and the store hold |
| SubmitProofs.SendProofAndWait | src/commands/protocols/common/submit-proofs-command.js:106-143 | sends the proof, then fails with the callback's error, or emits the submission-end event and ends empty |
| SubmitProofs.Default | src/commands/protocols/common/submit-proofs-command.js:173-181 | the command's `default(map)` is `Commands.Defaults` with the name `submitProofsCommand`: delay 0, not transactional, overrides win, no other key |
| SubmitProofs.EmptyAssertionStopsQuietly | src/commands/protocols/common/submit-proofs-command.js:68-71 | an assertion missing from the store ends the command empty after one challenge read: no proof is sent and the guard is not run |
| SubmitProofs.FinalizedCommitBlocksResubmission | src/commands/protocols/common/submit-proofs-command.js:93-104 | when this identity has a score-0 commit, the command ends empty and no proof is sent |
| SubmitProofs.StartEventsOnlyOnFirstAttempt | src/commands/protocols/common/submit-proofs-command.js:45-92 | the calculation-start, calculation-end and submission-start events appear only when `retries == COMMAND_RETRIES.SUBMIT_PROOFS` |
| SubmitProofs.SubmitEndIffSent | src/commands/protocols/common/submit-proofs-command.js:126-141 | the submission-end event is emitted iff the assertion exists, no finalized commit exists and the callback carried no error |
| SubmitProofs.EventOrder | src/commands/protocols/common/submit-proofs-command.js:45-141 | a successful first attempt emits exactly calculation start, calculation end, submission start, submission end, in that order |
| SubmitProofs.SendErrorFails | src/commands/protocols/common/submit-proofs-command.js:106-126 | a callback error makes `execute` reject with it, after the proof was sent and without the submission-end event |
| SubmitProofs.NeverContinues | src/commands/protocols/common/submit-proofs-command.js:23-144 | `execute` never continues a sequence: it ends empty, or fails only when the callback carried an error |
| SubmitProofs.EventsOfOutcome | src/commands/protocols/common/submit-proofs-command.js:23-144 | the exact event sequence of every path of `execute` |
| GetAssertionId.Outcome | src/commands/protocols/get/sender/get-assertion-id-command.js:18-79 | the effects and result of `execute` for `command.data.state`: the zero-hash refusal, the explicit-state checks, and the `LATEST` and finalized lookups |
| GetAssertionId.Execute | src/commands/protocols/get/sender/get-assertion-id-command.js:18-79 | `execute` appends exactly the effects of `Outcome` to the log, in order, and returns its result |
| GetAssertionId.HandleError | src/commands/protocols/get/sender/get-assertion-id-command.js:81-83 | `handleError` marks the operation failed with the given message and error type, and does nothing else |
| GetAssertionId.Default | src/commands/protocols/get/sender/get-assertion-id-command.js:90-98 | the command's `default(map)` is `Commands.Defaults` with the name `getAssertionIdCommand`: delay 0, not transactional, overrides win, no other key |
| GetAssertionId.ZeroStateRefused | src/commands/protocols/get/sender/get-assertion-id-command.js:23-31 | the zero hash marks the operation failed with `GET_ASSERTION_ID_ERROR` and ends empty, without reading the chain |
| GetAssertionId.PendingStateShortCircuits | src/commands/protocols/get/sender/get-assertion-id-command.js:33-47 | an explicit `command.data.state` equal to the pending id is accepted after one read; the on-chain list is not read |
| GetAssertionId.ExplicitStateAcceptedIffKnown | src/commands/protocols/get/sender/get-assertion-id-command.js:38-57 | a non-zero explicit state continues the sequence iff it strictly equals the pending id (an explicit `null` equals a null one) or is listed on chain, and is then the assertion id; otherwise it fails with the `TypeError` and marks nothing |
| GetAssertionId.NullStateMatchesNullPending | src/commands/protocols/get/sender/get-assertion-id-command.js:33-57 | an explicit `state: null` with a null pending id passes the strict comparison: accepted after one read, with a null assertion id |
| GetAssertionId.MissingStateFails | src/commands/protocols/get/sender/get-assertion-id-command.js:19-50 | a missing `state` takes the explicit-state branch, matches neither the pending id nor the list, and fails with the `TypeError` after both reads |
| GetAssertionId.LatestPrefersUnfinalized | src/commands/protocols/get/sender/get-assertion-id-command.js:63-75 | `LATEST` takes the unfinalized id unless it is null or the zero hash, in which case it takes the latest finalized id |
| GetAssertionId.OtherGetStateTakesLatest | src/commands/protocols/get/sender/get-assertion-id-command.js:58-76 | `LATEST_FINALIZED` reads only the latest finalized id and takes it |
| GetAssertionId.SuccessContinuesSequence | src/commands/protocols/get/sender/get-assertion-id-command.js:78 | on success the data keeps every other key, `state` is the requested state and `assertionId` is set, and the sequence is passed on unchanged |
| PublishScheduleMessages.TruncDiv | src/commands/protocols/publish/sender/publish-schedule-messages-command.js:88 | BigNumber `div` truncates toward zero: for a non-negative dividend and a positive divisor it is the floor quotient; its magnitude is the quotient of the magnitudes, and it is negative only when exactly one operand is |
| PublishScheduleMessages.TruncDivMagnitude | src/commands/protocols/publish/sender/publish-schedule-messages-command.js:88 | for any signs, the magnitude of the quotient times the divisor's magnitude lies within one divisor below the dividend's magnitude |
| PublishScheduleMessages.ServiceAgreementBid | src/commands/protocols/publish/sender/publish-schedule-messages-command.js:79-89 | a zero divisor `R0 * epochsNumber * assertionSize` throws; otherwise, for non-negative amounts, the bid is the least integer strictly above `(tokenAmount + updateTokenAmount) * 1024 / divisor` |
| PublishScheduleMessages.ValidBidCount | src/commands/protocols/publish/sender/publish-schedule-messages-command.js:91-101 | the number of valid bids never exceeds the number of nodes |
| PublishScheduleMessages.ValidBidCountIsCardinality | src/commands/protocols/publish/sender/publish-schedule-messages-command.js:91-101 | the count is exactly the number of nodes whose ask is at most the bid |
| PublishScheduleMessages.ValidBidCountMonotone | src/commands/protocols/publish/sender/publish-schedule-messages-command.js:98-100 | a higher bid never lowers the count |
| PublishScheduleMessages.AllAsksCovered | src/commands/protocols/publish/sender/publish-schedule-messages-command.js:98-100 | when every ask is at most the bid (an ask equal to it included, as `lte` says), every node counts |
| PublishScheduleMessages.CountValidBids | src/commands/protocols/publish/sender/publish-schedule-messages-command.js:91-101 | the `forEach` loop's count equals `ValidBidCount` of the converted asks and is at most the number of nodes |
| PublishScheduleMessages.Validate | src/commands/protocols/publish/sender/publish-schedule-messages-command.js:48-111 | the effects and verdict of `validateBidsForNeighbourhood`: three reads, the bid, the count of valid asks, and the mark-failed refusal |
| PublishScheduleMessages.ValidateBidsForNeighbourhood | src/commands/protocols/publish/sender/publish-schedule-messages-command.js:48-111 | appends exactly the effects of `Validate` and answers its verdict |
| PublishScheduleMessages.Outcome | src/commands/protocols/publish/sender/publish-schedule-messages-command.js:14-46 | the effects and ending of `execute`: validation on the first batch only, then delegation or `Command.empty()` |
| PublishScheduleMessages.Execute | src/commands/protocols/publish/sender/publish-schedule-messages-command.js:14-46 | `execute` appends exactly the effects of `Outcome` and ends as it says |
| PublishScheduleMessages.Default | src/commands/protocols/publish/sender/publish-schedule-messages-command.js:118-126 | the command's `default(map)` is `Commands.Defaults` with the name `publishScheduleMessagesCommand`: delay 0, not transactional, overrides win, no other key |
| PublishScheduleMessages.RefusedIffTooFewValidBids | src/commands/protocols/publish/sender/publish-schedule-messages-command.js:102-110 | with a non-zero divisor, validation answers false iff fewer than `minAckResponses` asks are at most the bid, and marks the operation failed with `PUBLISH_START_ERROR` exactly then |
| PublishScheduleMessages.ZeroDivisorThrows | src/commands/protocols/publish/sender/publish-schedule-messages-command.js:79-89 | a zero divisor rejects with a division by zero after the three reads, marking nothing |
| PublishScheduleMessages.DelegatesUnlessRefused | src/commands/protocols/publish/sender/publish-schedule-messages-command.js:27-45 | `execute` delegates to the schedule-messages step iff validation was skipped or passed, ends empty iff it was refused, and does nothing on a later batch |
| UpdateController.Outcome | src/controllers/http-api/update-http-api-controller.js:18-95 | the effects of `handleUpdateRequest`: the four acknowledgement effects, the try block, and the FAILED status when it threw |
| UpdateController.HandleUpdateRequest | src/controllers/http-api/update-http-api-controller.js:18-95 | `handleUpdateRequest` appends exactly the effects of `Outcome`, in order |
| UpdateController.TryBlock | src/controllers/http-api/update-http-api-controller.js:40-94 | the effects of the try block up to the first call that throws or rejects, and whether one did |
| UpdateController.TryToSchedule | src/controllers/http-api/update-http-api-controller.js:40-94 | the try block appends exactly the effects of `TryBlock` and reports whether it threw |
| UpdateController.AcknowledgedFirst | src/controllers/http-api/update-http-api-controller.js:19-35 | operation id with `UPDATE_START`, `UPDATE_INIT_START`, the 202 response and `UPDATE_INIT_END` are the first four effects, in that order; after them the only status written is FAILED |
| UpdateController.RecordCreatedBeforeEnqueue | src/controllers/http-api/update-http-api-controller.js:41-83 | every enqueue is preceded by the `IN_PROGRESS` operation record |
| UpdateController.TryBlockEnqueuesUnlessThrown | src/controllers/http-api/update-http-api-controller.js:40-94 | the try block throws iff a call rejected, the assertion data is missing, or `localStore` is set on a body that is not iterable (neither an array nor a string); it enqueues one command iff it does not throw |
| UpdateController.FailsIffNothingEnqueued | src/controllers/http-api/update-http-api-controller.js:84-94 | the request ends with FAILED and `UPDATE_ROUTE_ERROR` iff nothing is enqueued, iff something in the try block threw; at most one command is ever enqueued |
| UpdateController.DescriptorShape | src/controllers/http-api/update-http-api-controller.js:51-83 | name and sequence are the head and tail of the command list, `localStoreCommand` first only under `localStore`; delay 0, period 5000, retries 3, not transactional; data has exactly the six keys |
| UpdateController.SuccessEnqueuesDescriptor | src/controllers/http-api/update-http-api-controller.js:37-83 | when nothing throws, the record, the cache write and the enqueue follow the acknowledgement; the hash function id defaults to 1 only when the body's is null or undefined |
| UpdateController.LocalStoreObjectThrowsBeforeCaching | src/controllers/http-api/update-http-api-controller.js:53-56 | under `localStore` a plain-object body throws after the record is created and before anything is cached or enqueued |
| UpdateController.LocalStoreStringIsScheduled | src/controllers/http-api/update-http-api-controller.js:53-83 | under `localStore` a string body spreads into its characters without throwing: it is cached, `localStoreCommand` is enqueued with an undefined `assertionId`, and no FAILED status is written |
| TripleStore.CleanEscapeCharacter | src/modules/triple-store/implementation/ot-triple-store.js:231-233 | the output is as long as the input plus one per special character |
| TripleStore.UnescapeCleanEscapeCharacter | src/modules/triple-store/implementation/ot-triple-store.js:231-233 | dropping the backslash in front of each escaped character gives back the input |
| TripleStore.CleanEscapeCharacterPlain | src/modules/triple-store/implementation/ot-triple-store.js:231-233 | an id without any of the five special characters (quote, bar, both brackets, backslash) is returned unchanged |
| TripleStore.CleanEscapeCharacterAppend | src/modules/triple-store/implementation/ot-triple-store.js:231-233 | escaping works character by character: it distributes over concatenation |
| TripleStore.Ask | src/modules/triple-store/implementation/ot-triple-store.js:182-187 | the ASK query for the escaped-id graph: rejected by the parser when that graph name is not a valid IRI, otherwise whether the graph holds a quad |
| TripleStore.GraphNameValid | src/modules/triple-store/implementation/ot-triple-store.js:184 | the graph name `assertion:<id>` is a valid IRI iff the id is |
| TripleStore.EscapedSpecialHasBackslash | src/modules/triple-store/implementation/ot-triple-store.js:231-233 | an id with one of the five special characters escapes to text that contains a backslash |
| TripleStore.AskAnsweredIffPlain | src/modules/triple-store/implementation/ot-triple-store.js:182-187 | the existence check is answered iff the id has none of the five special characters and is a valid IRI; every id the escaper changes makes the ASK query fail to parse |
| TripleStore.AnsweredIdHasValidGraph | src/modules/triple-store/implementation/ot-triple-store.js:147-158 | an id the existence check answers for also gives a valid raw-id graph name for the insert and the drop |
| TripleStore.Construct | src/modules/triple-store/implementation/ot-triple-store.js:195-209 | the CONSTRUCT read fails exactly when the existence check fails, and otherwise is non-empty iff that check answers true |
| TripleStore.InsertThenExists | src/modules/triple-store/implementation/ot-triple-store.js:147-160 | for an id without special characters that is a valid IRI, after an insert the id exists, so a second `insertAssertion` writes nothing, and the read returns the inserted quads |
| TripleStore.DropThenAbsent | src/modules/triple-store/implementation/ot-triple-store.js:182-193 | for such an id, after a drop the existence check answers false and the read returns nothing |
| TripleStore.ContextsShareSources | src/modules/triple-store/implementation/ot-triple-store.js:34-54 | both contexts have the same single source, the SPARQL endpoint; only the update context has a destination, the update endpoint; the rest of the repository is kept |
| TripleStore.EnsureConnection | src/modules/triple-store/implementation/ot-triple-store.js:58-76 | the retry count never exceeds the maximum; every check before it failed; the process exits iff the count reaches the maximum, iff every check before the maximum failed, even when the final check succeeded |
| TripleStore.OtTripleStore.constructor | src/modules/triple-store/implementation/ot-triple-store.js:11-13 | the store starts with the configured repositories and their contents, and no update sent |
| TripleStore.OtTripleStore.InitializeContexts | src/modules/triple-store/implementation/ot-triple-store.js:34-54 | every repository, and no other, gets its contexts; the stored data does not change |
| TripleStore.OtTripleStore.EnsureConnections | src/modules/triple-store/implementation/ot-triple-store.js:56-80 | the process exits iff some configured repository gives up |
| TripleStore.OtTripleStore.AssertionExists | src/modules/triple-store/implementation/ot-triple-store.js:182-187 | `assertionExists` answers exactly for the ids without special characters that are valid IRIs, and rejects for every other id |
| TripleStore.OtTripleStore.InsertAssertion | src/modules/triple-store/implementation/ot-triple-store.js:147-160 | a rejected existence check rejects the call and writes nothing; when the check finds the id nothing is written; otherwise the quads go into the raw-id graph and one insert query is sent |
| TripleStore.OtTripleStore.DeleteAssertion | src/modules/triple-store/implementation/ot-triple-store.js:189-193 | a raw-id graph name that is not a valid IRI rejects and changes nothing; otherwise the graph is dropped and one drop query is sent |
| TripleStore.OtTripleStore.GetAssertion | src/modules/triple-store/implementation/ot-triple-store.js:195-209 | rejects exactly when `assertionExists` rejects; otherwise returns the escaped-id graph's quads, non-empty iff `assertionExists` answers true |

## Left out

- The command executor, the `Command` base class (`continueSequence`, `empty`, `recover`, retries, deadlines), the schedule-messages step that `publishScheduleMessagesCommand` delegates to, and the Express response object are not part of this model. They appear only as effects (`Enqueue`, `Respond`) or as the `Delegated` outcome.
- The blockchain gateway, the triple-store query engine (SPARQL text, comunica), the operation-id service and the repository module are outside collaborators. Their answers are inputs; their calls are effects.
- `getMerkleProof`, `convertToWei`, `calculateScore` and the health checks are opaque: they are parameters. `Date.now()` is the parameter `now`.
- Logging (`logger.trace`, `info`, `warn`, `error`) and the `setTimeout` waits between connection retries are not modelled.
- Collaborator calls are modelled as never failing, except where a rejection changes the control flow: the transaction callback's error in `submitProofsCommand`, the three calls inside the try block of `handleUpdateRequest`, the query engine's rejection of an ASK, CONSTRUCT or DROP query whose graph IRI does not parse (`QueryParseError`), and BigNumber's division by zero in the bid computation (`DivisionByZero`).
- Concurrency is not modelled. `ensureConnections` runs one repository after another rather than under `Promise.all`, and the `process.exit(1)` of one repository is reported as the result. The asynchronous transaction callback is modelled by its promise's final state.
- These constants are assumed, because their definitions are not part of this model:
  - `GET_STATES` = {`LATEST`, `LATEST_FINALIZED`};
  - `ZERO_BYTES32` is `0x` followed by 64 zeros;
  - `CONTENT_ASSET_HASH_FUNCTION_ID` = 1.
- EpochCheck.Outcome requires `WellFormed` data: a numeric `epoch`, and a `serviceAgreement` that is an agreement or absent. JavaScript's behaviour on other shapes (string arithmetic, reading fields of a non-object) is not modelled.
- EpochCheck: the expiry test reads `epochsNum`, while the system's agreement record names the field `epochsNumber`. The model keeps `epochsNum` as an optional field; when it is missing, expiry never fires.
- EpochCheck: the re-enqueued check carries no `operationId`, so a later expiry writes its status with an undefined operation id. The model keeps this as written.
- EpochCheck: `calculateScore()` is called on `this.serviceAgreementService`, which the constructor never assigns. The model takes the score as a parameter and does not model that throw.
- PublishScheduleMessages.Execute takes the outcome of `leftoverNodes === numberOfFoundNodes` as the boolean `firstBatch`. As written, the guard compares a list with a count, and a strict comparison of those is always false, so validation would never run.
- PublishScheduleMessages: `minAckResponses` is an integer; an undefined value (every comparison false) is not modelled. The agreement-id generation (`generateId`) is omitted: it logs no effect, and the agreement data it keys is given directly in the chain view.
- SubmitProofs.Callback: the callback error is either present or absent; a present but falsy `result.error` (an empty string, say) is treated as present.
- TripleStore.OtTripleStore: each operation requires its repository to be configured. The source dereferences `this.repositories[repository]`, which throws otherwise; that throw is not modelled.
- TripleStore: `initializeRepositories` and `initializeSparqlEndpoints` are abstract in this class (they throw), and `reinitialize`, the asset-metadata queries and `select`/`construct` parsing are not part of the core modelled here.
- TripleStore: a graph's contents are a set of quad strings, and a graph is reported to exist iff it holds at least one quad. A query is rejected exactly when the graph IRI it embeds has a character that IRIREF does not admit; the quads themselves are taken as well-formed, and other parse errors of the query text are not modelled.
- GetAssertionId.Outcome: the pending id from `getUnfinalizedAssertionId` is a string or `null`, never `undefined`. A `state` key holding `null` is an explicit null (it equals a null pending id); a missing key is `undefined` (it equals none). `MissingStateFails` holds under that assumption.
- TripleStore: the raw-id `INSERT DATA` of `insertAssertion` is not itself checked for a valid IRI. Any id the existence check answers for gives a valid one (`AnsweredIdHasValidGraph`), so this loses nothing.
