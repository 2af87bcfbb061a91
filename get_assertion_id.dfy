/**
 * Resolution of a requested state to an assertion id (`GetAssertionIdCommand`).
 * A state that is not one of the symbolic `GET_STATES` is an explicit
 * assertion id: the zero hash is refused, a pending (unfinalized) id or one
 * listed on chain is accepted. `LATEST` takes the unfinalized id when there is
 * a usable one; every other symbolic state takes the latest finalized id.
 *
 * The refusal of an unknown explicit state builds its message from two
 * adjacent template literals; JavaScript reads the second as a tagged template
 * whose tag is the first (a string), so the call throws a `TypeError` before
 * `handleError` runs. The model fails there.
 */
module GetAssertionId {
  import opened Commands

  const Name := "getAssertionIdCommand"

  /** The symbolic states of `GET_STATES`. */
  const Latest := "LATEST"
  const LatestFinalized := "LATEST_FINALIZED"

  /** `ZERO_BYTES32`: "0x" followed by 64 zero digits. */
  const ZeroBytes32: string := "0x0000000000000000000000000000000000000000000000000000000000000000"

  /** The thrown `TypeError`: a string is not a function. */
  const TagIsNotAFunction := TypeError("string is not a function")

  /** The requested state, `command.data.state`; `Null` when it is missing. */
  function StateOf(data: Data): Value {
    Get(data, "state")
  }

  predicate IsGetState(state: Value) {
    state == Str(Latest) || state == Str(LatestFinalized)
  }

  /** What the blockchain answers: the unfinalized (pending) assertion id, the
      assertion ids on chain, and the latest finalized id; `None` is null. */
  datatype ChainView = ChainView(
    unfinalized: Option<string>,
    assertionIds: seq<string>,
    latest: Option<string>)

  /** `state === pendingState`. The chain answers a string or `null`. A null
      pending id equals an explicit `state: null`, but not a missing state
      (`undefined !== null`). */
  predicate IsPending(data: Data, chain: ChainView) {
    if chain.unfinalized.Some? then StateOf(data) == Str(chain.unfinalized.value)
    else "state" in data && data["state"] == Null
  }

  /** `assertionIds.includes(state)`: the list holds strings only. */
  predicate IsListed(state: Value, chain: ChainView) {
    state.Str? && state.s in chain.assertionIds
  }

  function ZeroStateMessage(state: string): string {
    "The provided state: " + state + ". State hash cannot be 0x0."
  }

  function AsValue(id: Option<string>): Value {
    if id.Some? then Str(id.value) else Null
  }

  /** `continueSequence` with `state` and `assertionId` spread over the data. */
  function Resolved(data: Data, sequence: seq<string>, state: Value, assertionId: Value): CommandResult {
    Continue(data + map["state" := state, "assertionId" := assertionId], sequence)
  }

  /** Effects and result of `execute` for the state the data requests. */
  function Outcome(data: Data, sequence: seq<string>, chain: ChainView): Run {
    var state := StateOf(data);
    if !IsGetState(state) then
      if state == Str(ZeroBytes32) then
        Run([MarkOperationFailed(Get(data, "operationId"), ZeroStateMessage(ZeroBytes32), GetAssertionIdError)], Empty)
      else if IsPending(data, chain) then
        Run([Query(UnfinalizedAssertionIdRead)], Resolved(data, sequence, state, state))
      else if IsListed(state, chain) then
        Run([Query(UnfinalizedAssertionIdRead), Query(AssertionIdsRead)], Resolved(data, sequence, state, state))
      else
        Run([Query(UnfinalizedAssertionIdRead), Query(AssertionIdsRead)], Fails(TagIsNotAFunction))
    else
      var pending := if state == Str(Latest) then chain.unfinalized else None;
      var pendingRead := if state == Str(Latest) then [Query(UnfinalizedAssertionIdRead)] else [];
      if pending.None? || pending == Some(ZeroBytes32) then
        Run(pendingRead + [Query(LatestAssertionIdRead)], Resolved(data, sequence, state, AsValue(chain.latest)))
      else
        Run(pendingRead, Resolved(data, sequence, state, Str(pending.value)))
  }

  /** `execute`, acting on the outside world one step at a time. */
  method Execute(log: EffectLog, data: Data, sequence: seq<string>, chain: ChainView)
    returns (result: CommandResult)
    modifies log
    ensures log.effects == old(log.effects) + Outcome(data, sequence, chain).effects
    ensures result == Outcome(data, sequence, chain).result
  {
    var operationId := Get(data, "operationId");
    var state := Get(data, "state");
    var assertionId: Value := Null;
    if !IsGetState(state) {
      if state == Str(ZeroBytes32) {
        HandleError(log, operationId, ZeroStateMessage(ZeroBytes32), GetAssertionIdError);
        return Empty;
      }
      log.Append(Query(UnfinalizedAssertionIdRead));
      var pendingState := chain.unfinalized;
      var known := if pendingState.Some? then state == Str(pendingState.value)
                   else "state" in data && data["state"] == Null;
      if !known {
        log.Append(Query(AssertionIdsRead));
        known := state.Str? && state.s in chain.assertionIds;
      }
      if !known {
        // evaluating the message argument of `handleError` throws
        return Fails(TagIsNotAFunction);
      }
      assertionId := state;
    } else {
      if state == Str(Latest) {
        log.Append(Query(UnfinalizedAssertionIdRead));
        assertionId := AsValue(chain.unfinalized);
      }
      if assertionId == Null || assertionId == Str(ZeroBytes32) {
        log.Append(Query(LatestAssertionIdRead));
        assertionId := AsValue(chain.latest);
      }
    }
    return Resolved(data, sequence, state, assertionId);
  }

  /** `handleError`: mark the operation failed. */
  method HandleError(log: EffectLog, operationId: Value, message: string, errorType: ErrorType)
    modifies log
    ensures log.effects == old(log.effects) + [MarkOperationFailed(operationId, message, errorType)]
  {
    log.Append(MarkOperationFailed(operationId, message, errorType));
  }

  /** `default(map)`. */
  function Default(overrides: Data): (command: Data)
    ensures command == Defaults(Name, overrides)
  {
    Defaults(Name, overrides)
  }

  // ---------------------------------------------------------------------
  // Properties of `execute`

  /** The zero hash is refused at once: the operation is marked failed, the
      command ends empty, and the blockchain is not read. */
  lemma ZeroStateRefused(data: Data, sequence: seq<string>, chain: ChainView)
    requires StateOf(data) == Str(ZeroBytes32)
    ensures Outcome(data, sequence, chain)
            == Run([MarkOperationFailed(Get(data, "operationId"), ZeroStateMessage(ZeroBytes32), GetAssertionIdError)], Empty)
  {
    assert !IsGetState(Str(ZeroBytes32)) by {
      assert |ZeroBytes32| == 66 && |Latest| == 6 && |LatestFinalized| == 16;
    }
  }

  /** An explicit state equal to the pending id is accepted without reading
      the on-chain list. */
  lemma PendingStateShortCircuits(data: Data, sequence: seq<string>, chain: ChainView)
    requires !IsGetState(StateOf(data)) && StateOf(data) != Str(ZeroBytes32)
    requires chain.unfinalized.Some? && StateOf(data) == Str(chain.unfinalized.value)
    ensures var run := Outcome(data, sequence, chain);
      && run.effects == [Query(UnfinalizedAssertionIdRead)]
      && run.result.Continue? && run.result.data["assertionId"] == StateOf(data)
  {
  }

  /** An explicit, non-zero state is accepted iff it is the pending id or is
      listed on chain, and then it is the assertion id; otherwise the command
      fails with the `TypeError`, without marking the operation failed. */
  lemma ExplicitStateAcceptedIffKnown(data: Data, sequence: seq<string>, chain: ChainView)
    requires !IsGetState(StateOf(data)) && StateOf(data) != Str(ZeroBytes32)
    ensures var state, run := StateOf(data), Outcome(data, sequence, chain);
      && (run.result.Continue? <==>
            (chain.unfinalized.Some? && state == Str(chain.unfinalized.value))
            || (chain.unfinalized.None? && "state" in data && data["state"] == Null)
            || (state.Str? && state.s in chain.assertionIds))
      && (run.result.Continue? ==> run.result.data["assertionId"] == state)
      && (!run.result.Continue? ==> run.result == Fails(TagIsNotAFunction))
      && forall i :: 0 <= i < |run.effects| ==> !run.effects[i].MarkOperationFailed?
  {
  }

  /** An explicit `state: null` meets a null pending id under the strict
      comparison: it is accepted after one read, with a null assertion id. */
  lemma NullStateMatchesNullPending(data: Data, sequence: seq<string>, chain: ChainView)
    requires "state" in data && data["state"] == Null && chain.unfinalized.None?
    ensures var run := Outcome(data, sequence, chain);
      && run.effects == [Query(UnfinalizedAssertionIdRead)]
      && run.result.Continue? && run.result.data["assertionId"] == Null
  {
  }

  /** A missing state is neither symbolic nor the zero hash, matches no
      pending id and is in no list: both reads happen and the command fails
      with the `TypeError`. */
  lemma MissingStateFails(data: Data, sequence: seq<string>, chain: ChainView)
    requires "state" !in data
    ensures Outcome(data, sequence, chain)
            == Run([Query(UnfinalizedAssertionIdRead), Query(AssertionIdsRead)], Fails(TagIsNotAFunction))
  {
  }

  /** `LATEST` takes a usable unfinalized id; a null or zero one falls back to
      the latest finalized id. */
  lemma LatestPrefersUnfinalized(data: Data, sequence: seq<string>, chain: ChainView)
    requires StateOf(data) == Str(Latest)
    ensures var r := Outcome(data, sequence, chain).result;
      && r.Continue?
      && r.data["assertionId"]
         == if chain.unfinalized.None? || chain.unfinalized == Some(ZeroBytes32) then AsValue(chain.latest)
            else Str(chain.unfinalized.value)
  {
  }

  /** Any other symbolic state takes the latest finalized id, and the pending
      id is not even read. */
  lemma OtherGetStateTakesLatest(data: Data, sequence: seq<string>, chain: ChainView)
    requires IsGetState(StateOf(data)) && StateOf(data) != Str(Latest)
    ensures var run := Outcome(data, sequence, chain);
      && run.effects == [Query(LatestAssertionIdRead)]
      && run.result.Continue? && run.result.data["assertionId"] == AsValue(chain.latest)
  {
  }

  /** On success the data keeps every other key, `state` and `assertionId`
      override, and the sequence is passed on unchanged. */
  lemma SuccessContinuesSequence(data: Data, sequence: seq<string>, chain: ChainView)
    requires Outcome(data, sequence, chain).result.Continue?
    ensures var r := Outcome(data, sequence, chain).result;
      && r.sequence == sequence
      && r.data.Keys == data.Keys + {"state", "assertionId"}
      && r.data["state"] == StateOf(data)
      && forall k :: k in data && k != "state" && k != "assertionId" ==> r.data[k] == data[k]
  {
  }
}
