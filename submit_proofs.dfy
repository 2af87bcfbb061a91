/**
 * The proof path for one epoch (`SubmitProofsCommand`): fetch the challenge,
 * load the assertion, compute the Merkle proof, skip if this node already has
 * a finalized (score 0) submission, and otherwise send the proof, waiting on
 * the transaction's completion callback. Status events are emitted only on
 * the first attempt, except the final one.
 */
module SubmitProofs {
  import opened Commands

  const Name := "submitProofsCommand"

  /** The leaf and authentication path `getMerkleProof` returns. */
  datatype MerkleProof = MerkleProof(leaf: string, proof: seq<string>)

  /** What the collaborators answer: the challenge, the assertion held in the
      triple store (empty when absent), the top commits, this node's identity,
      and the error (if any) the `sendProof` completion callback carries. */
  datatype ChainView = ChainView(
    challenge: int,
    assertion: seq<string>,
    topCommits: seq<Commit>,
    identityId: int,
    sendError: Option<string>)

  // ---------------------------------------------------------------------
  // The idempotency guard

  /** Some commit is this identity's, with score exactly 0. */
  predicate HasFinalizedCommit(commits: seq<Commit>, identityId: int) {
    exists i :: 0 <= i < |commits| && commits[i].identityId == identityId && commits[i].score == 0
  }

  /** The scan of `proofAlreadySubmitted`, returning at the first match. */
  method ScanForFinalizedCommit(commits: seq<Commit>, identityId: int) returns (found: bool)
    ensures found <==> HasFinalizedCommit(commits, identityId)
  {
    for i := 0 to |commits|
      invariant forall j :: 0 <= j < i ==> !(commits[j].identityId == identityId && commits[j].score == 0)
    {
      if commits[i].identityId == identityId && commits[i].score == 0 {
        return true;
      }
    }
    return false;
  }

  /** `proofAlreadySubmitted`: read the top commits and the identity, then scan. */
  method ProofAlreadySubmitted(log: EffectLog, chain: ChainView) returns (found: bool)
    modifies log
    ensures log.effects == old(log.effects) + [Query(TopCommitSubmissionsRead), Query(IdentityIdRead)]
    ensures found <==> HasFinalizedCommit(chain.topCommits, chain.identityId)
  {
    log.Append(Query(TopCommitSubmissionsRead));
    log.Append(Query(IdentityIdRead));
    found := ScanForFinalizedCommit(chain.topCommits, chain.identityId);
  }

  // ---------------------------------------------------------------------
  // The callback-to-promise bridge

  /** The state of the promise wrapped around `sendProof`. */
  datatype Promise = Pending | Resolved | Rejected(reason: string)

  /** `resolve`/`reject` on a promise: only the first settlement counts. */
  function Settle(p: Promise, next: Promise): Promise
    requires !next.Pending?
  {
    if p.Pending? then next else p
  }

  /** The first settlement wins: a settled promise stays settled, and any
      later `resolve` or `reject` leaves it as it is. */
  lemma SettleFirstWins(p: Promise, first: Promise, later: Promise)
    requires !first.Pending? && !later.Pending?
    ensures !Settle(p, first).Pending?
    ensures Settle(Settle(p, first), later) == Settle(p, first)
    ensures p.Pending? ==> Settle(Settle(p, first), later) == first
  {
  }

  /** The completion callback: reject on an error, then resolve. */
  function Callback(error: Option<string>): Promise {
    var p := if error.Some? then Settle(Pending, Rejected(error.value)) else Pending;
    Settle(p, Resolved)
  }

  /** A callback with an error leaves the promise rejected: the later
      `resolve()` has no effect. Without one it resolves. */
  lemma CallbackSettlesOnce(error: Option<string>)
    ensures error.Some? ==> Callback(error) == Rejected(error.value)
    ensures error.None? ==> Callback(error) == Resolved
  {
  }

  // ---------------------------------------------------------------------
  // execute

  /** The four events of one proof attempt in a sequence of effects. */
  function Events(effects: seq<Effect>): seq<ProofEvent> {
    if effects == [] then []
    else Events(effects[..|effects| - 1])
         + (if effects[|effects| - 1].EmitEvent? then [effects[|effects| - 1].event] else [])
  }

  lemma {:induction false} EventsAppend(a: seq<Effect>, b: seq<Effect>)
    ensures Events(a + b) == Events(a) + Events(b)
    decreases |b|
  {
    if b == [] {
      assert a + b == a;
    } else {
      var b' := b[..|b| - 1];
      assert (a + b)[..|a + b| - 1] == a + b';
      EventsAppend(a, b');
    }
  }

  /** The effects up to and including the assertion read. */
  function Fetch(data: Data, first: bool): seq<Effect> {
    (if first then [EmitEvent(CalculateProofsStart, Get(data, "operationId"), Get(data, "agreementId"), Get(data, "epoch"))] else [])
    + [Query(ChallengeRead), Query(AssertionRead)]
  }

  /** The effects from the end of the proof calculation up to the guard's reads. */
  function Calculated(data: Data, first: bool): seq<Effect> {
    var op, ag, ep := Get(data, "operationId"), Get(data, "agreementId"), Get(data, "epoch");
    (if first then [EmitEvent(CalculateProofsEnd, op, ag, ep), EmitEvent(SubmitProofsStart, op, ag, ep)] else [])
    + [Query(TopCommitSubmissionsRead), Query(IdentityIdRead)]
  }

  /** The effects and result of sending the proof and awaiting the callback. */
  function Submit(data: Data, p: MerkleProof, sendError: Option<string>): Run {
    var sent := [SendProof(p.leaf, p.proof)];
    match Callback(sendError)
    case Rejected(e) => Run(sent, Fails(TransactionError(e)))
    case _ => Run(sent + [EmitEvent(SubmitProofsEnd, Get(data, "operationId"), Get(data, "agreementId"), Get(data, "epoch"))], Empty)
  }

  /** Effects and result of `execute`. `retries` is the command's remaining
      retries, `maxRetries` is `COMMAND_RETRIES.SUBMIT_PROOFS`, `merkle` is
      `getMerkleProof`. */
  function Outcome(data: Data, retries: int, maxRetries: int, chain: ChainView,
                   merkle: (seq<string>, int) -> MerkleProof): Run
  {
    var first := retries == maxRetries;
    if |chain.assertion| == 0 then Run(Fetch(data, first), Empty)
    else
      var checked := Fetch(data, first) + Calculated(data, first);
      if HasFinalizedCommit(chain.topCommits, chain.identityId) then Run(checked, Empty)
      else
        var submitted := Submit(data, merkle(chain.assertion, chain.challenge), chain.sendError);
        Run(checked + submitted.effects, submitted.result)
  }

  /** `execute`, acting on the outside world one step at a time. */
  method Execute(log: EffectLog, data: Data, retries: int, maxRetries: int, chain: ChainView,
                 merkle: (seq<string>, int) -> MerkleProof) returns (result: CommandResult)
    modifies log
    ensures log.effects == old(log.effects) + Outcome(data, retries, maxRetries, chain, merkle).effects
    ensures result == Outcome(data, retries, maxRetries, chain, merkle).result
  {
    var first := retries == maxRetries;
    var challenge, assertion := FetchChallengeAndAssertion(log, data, first, chain);
    ghost var fetched := log.effects;
    if |assertion| == 0 {
      return Empty;
    }

    var p := merkle(assertion, challenge);
    var operationId, agreementId, epoch := Get(data, "operationId"), Get(data, "agreementId"), Get(data, "epoch");
    if first {
      log.Append(EmitEvent(CalculateProofsEnd, operationId, agreementId, epoch));
      log.Append(EmitEvent(SubmitProofsStart, operationId, agreementId, epoch));
    }
    var alreadySubmitted := ProofAlreadySubmitted(log, chain);
    assert log.effects == fetched + Calculated(data, first);
    if alreadySubmitted {
      return Empty;
    }
    ghost var checked := log.effects;
    result := SendProofAndWait(log, data, p, chain.sendError);
    assert log.effects == checked + Submit(data, p, chain.sendError).effects;
  }

  /** The first steps of `execute`: the first attempt's start event, then the
      challenge and the assertion. */
  method FetchChallengeAndAssertion(log: EffectLog, data: Data, first: bool, chain: ChainView)
    returns (challenge: int, assertion: seq<string>)
    modifies log
    ensures log.effects == old(log.effects) + Fetch(data, first)
    ensures challenge == chain.challenge && assertion == chain.assertion
  {
    if first {
      log.Append(EmitEvent(CalculateProofsStart, Get(data, "operationId"), Get(data, "agreementId"), Get(data, "epoch")));
    }
    log.Append(Query(ChallengeRead));
    challenge := chain.challenge;
    log.Append(Query(AssertionRead));
    assertion := chain.assertion;
  }

  /** Send the proof and wait on the promise its completion callback settles. */
  method SendProofAndWait(log: EffectLog, data: Data, p: MerkleProof, sendError: Option<string>)
    returns (result: CommandResult)
    modifies log
    ensures log.effects == old(log.effects) + Submit(data, p, sendError).effects
    ensures result == Submit(data, p, sendError).result
  {
    log.Append(SendProof(p.leaf, p.proof));
    var promise := Pending;
    if sendError.Some? {
      promise := Settle(promise, Rejected(sendError.value));
    }
    promise := Settle(promise, Resolved);
    if promise.Rejected? {
      return Fails(TransactionError(promise.reason));
    }
    log.Append(EmitEvent(SubmitProofsEnd, Get(data, "operationId"), Get(data, "agreementId"), Get(data, "epoch")));
    return Empty;
  }

  /** `default(map)`. */
  function Default(overrides: Data): (command: Data)
    ensures command == Defaults(Name, overrides)
  {
    Defaults(Name, overrides)
  }

  // ---------------------------------------------------------------------
  // Properties of `execute`

  /** An assertion missing from the triple store ends the command quietly:
      the challenge has been read once, nothing is sent and the guard is not run. */
  lemma EmptyAssertionStopsQuietly(data: Data, retries: int, maxRetries: int, chain: ChainView,
                                   merkle: (seq<string>, int) -> MerkleProof)
    requires |chain.assertion| == 0
    ensures var run := Outcome(data, retries, maxRetries, chain, merkle);
      && run.result == Empty
      && multiset(run.effects)[Query(ChallengeRead)] == 1
      && Query(TopCommitSubmissionsRead) !in run.effects
      && forall i :: 0 <= i < |run.effects| ==> !run.effects[i].SendProof?
  {
  }

  /** Idempotence: once this identity has a finalized submission, the proof is
      not sent again. */
  lemma FinalizedCommitBlocksResubmission(data: Data, retries: int, maxRetries: int, chain: ChainView,
                                          merkle: (seq<string>, int) -> MerkleProof, i: nat)
    requires i < |chain.topCommits|
    requires chain.topCommits[i] == Commit(chain.identityId, 0)
    ensures var run := Outcome(data, retries, maxRetries, chain, merkle);
      && run.result == Empty
      && forall k :: 0 <= k < |run.effects| ==> !run.effects[k].SendProof?
  {
    assert HasFinalizedCommit(chain.topCommits, chain.identityId);
  }

  /** Calculation-start, calculation-end and submission-start events appear
      only on the first attempt (`retries == COMMAND_RETRIES.SUBMIT_PROOFS`). */
  lemma StartEventsOnlyOnFirstAttempt(data: Data, retries: int, maxRetries: int, chain: ChainView,
                                      merkle: (seq<string>, int) -> MerkleProof)
    ensures var events := Events(Outcome(data, retries, maxRetries, chain, merkle).effects);
      retries != maxRetries ==>
        CalculateProofsStart !in events && CalculateProofsEnd !in events && SubmitProofsStart !in events
  {
    EventsOfOutcome(data, retries, maxRetries, chain, merkle);
  }

  /** The submission-end event is emitted exactly when a proof was sent and its
      callback carried no error, whatever the retry count. */
  lemma SubmitEndIffSent(data: Data, retries: int, maxRetries: int, chain: ChainView,
                         merkle: (seq<string>, int) -> MerkleProof)
    ensures var run := Outcome(data, retries, maxRetries, chain, merkle);
      (SubmitProofsEnd in Events(run.effects))
      <==> (|chain.assertion| > 0 && !HasFinalizedCommit(chain.topCommits, chain.identityId) && chain.sendError.None?)
  {
    EventsOfOutcome(data, retries, maxRetries, chain, merkle);
  }

  /** The events in order: on the first attempt of a successful submission,
      calculation start, calculation end, submission start, submission end. */
  lemma EventOrder(data: Data, maxRetries: int, chain: ChainView, merkle: (seq<string>, int) -> MerkleProof)
    requires |chain.assertion| > 0 && !HasFinalizedCommit(chain.topCommits, chain.identityId) && chain.sendError.None?
    ensures Events(Outcome(data, maxRetries, maxRetries, chain, merkle).effects)
            == [CalculateProofsStart, CalculateProofsEnd, SubmitProofsStart, SubmitProofsEnd]
  {
    EventsOfOutcome(data, maxRetries, maxRetries, chain, merkle);
  }

  /** A callback carrying an error makes `execute` fail, after the proof was
      sent and without the submission-end event. */
  lemma SendErrorFails(data: Data, retries: int, maxRetries: int, chain: ChainView,
                       merkle: (seq<string>, int) -> MerkleProof)
    requires |chain.assertion| > 0 && !HasFinalizedCommit(chain.topCommits, chain.identityId)
    requires chain.sendError.Some?
    ensures var run := Outcome(data, retries, maxRetries, chain, merkle);
      && run.result == Fails(TransactionError(chain.sendError.value))
      && run.effects[|run.effects| - 1]
         == SendProof(merkle(chain.assertion, chain.challenge).leaf, merkle(chain.assertion, chain.challenge).proof)
      && SubmitProofsEnd !in Events(run.effects)
  {
    EventsOfOutcome(data, retries, maxRetries, chain, merkle);
  }

  /** No path continues a sequence: the command ends empty or fails. */
  lemma NeverContinues(data: Data, retries: int, maxRetries: int, chain: ChainView,
                       merkle: (seq<string>, int) -> MerkleProof)
    ensures var r := Outcome(data, retries, maxRetries, chain, merkle).result;
      r == Empty || (r.Fails? && chain.sendError.Some?)
  {
  }

  lemma EventsOfFetch(data: Data, first: bool)
    ensures Events(Fetch(data, first)) == if first then [CalculateProofsStart] else []
  {
    var startFx := if first then [EmitEvent(CalculateProofsStart, Get(data, "operationId"), Get(data, "agreementId"), Get(data, "epoch"))] else [];
    var fetchReads := [Query(ChallengeRead), Query(AssertionRead)];
    EventsAppend(startFx, fetchReads);
    assert fetchReads[..1] == [Query(ChallengeRead)];
    if first { assert startFx[..0] == []; }
  }

  lemma EventsOfCalculated(data: Data, first: bool)
    ensures Events(Calculated(data, first)) == if first then [CalculateProofsEnd, SubmitProofsStart] else []
  {
    var op, ag, ep := Get(data, "operationId"), Get(data, "agreementId"), Get(data, "epoch");
    var endFx := if first then [EmitEvent(CalculateProofsEnd, op, ag, ep), EmitEvent(SubmitProofsStart, op, ag, ep)] else [];
    var guard := [Query(TopCommitSubmissionsRead), Query(IdentityIdRead)];
    EventsAppend(endFx, guard);
    assert guard[..1] == [Query(TopCommitSubmissionsRead)];
    if first {
      assert endFx[..1] == [EmitEvent(CalculateProofsEnd, op, ag, ep)];
      assert endFx[..1][..0] == [];
    }
  }

  lemma EventsOfSubmit(data: Data, p: MerkleProof, sendError: Option<string>)
    ensures Events(Submit(data, p, sendError).effects) == if sendError.None? then [SubmitProofsEnd] else []
  {
    var sent := [SendProof(p.leaf, p.proof)];
    assert Events(sent) == [] by { assert sent[..0] == []; }
    if sendError.None? {
      EventsAppend(sent, [EmitEvent(SubmitProofsEnd, Get(data, "operationId"), Get(data, "agreementId"), Get(data, "epoch"))]);
    }
  }

  /** The event sequence of every path of `execute`. */
  lemma {:induction false} EventsOfOutcome(data: Data, retries: int, maxRetries: int, chain: ChainView,
                                           merkle: (seq<string>, int) -> MerkleProof)
    ensures var first := retries == maxRetries;
      var events := Events(Outcome(data, retries, maxRetries, chain, merkle).effects);
      var starts := if first then [CalculateProofsStart] else [];
      var middles := if first then [CalculateProofsEnd, SubmitProofsStart] else [];
      events == if |chain.assertion| == 0 then starts
                else if HasFinalizedCommit(chain.topCommits, chain.identityId) || chain.sendError.Some?
                then starts + middles
                else starts + middles + [SubmitProofsEnd]
  {
    var first := retries == maxRetries;
    EventsOfFetch(data, first);
    if |chain.assertion| > 0 {
      EventsOfCalculated(data, first);
      EventsAppend(Fetch(data, first), Calculated(data, first));
      if !HasFinalizedCommit(chain.topCommits, chain.identityId) {
        var p := merkle(chain.assertion, chain.challenge);
        EventsOfSubmit(data, p, chain.sendError);
        EventsAppend(Fetch(data, first) + Calculated(data, first), Submit(data, p, chain.sendError).effects);
      }
    }
  }
}
