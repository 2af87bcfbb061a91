/**
 * The HTTP handler that starts an update (`UpdateController.handleUpdateRequest`).
 * It answers 202 with a fresh operation id before looking at the body, then,
 * inside one try block, records the operation as in progress, caches the
 * assertion data and enqueues the command sequence
 * `[localStoreCommand?] validateUpdateAssertionCommand networkUpdateCommand`.
 * Whatever throws inside the try block turns into a FAILED status with
 * `UPDATE_ROUTE_ERROR`.
 */
module UpdateController {
  import opened Commands

  /** `CONTENT_ASSET_HASH_FUNCTION_ID`. */
  const ContentAssetHashFunctionId := 1

  const LocalStoreCommand := "localStoreCommand"
  const ValidateUpdateAssertionCommand := "validateUpdateAssertionCommand"
  const NetworkUpdateCommand := "networkUpdateCommand"

  const FailedMessage := "Unable to update data, Failed to process input data!"

  /** `req.body.assertionData`: absent (`undefined`/`null`), a plain object
      carrying `publicAssertionId`, an array, or a string. A number or a
      boolean behaves as a `Record` whose `publicAssertionId` is `Null`. */
  datatype AssertionData = Missing | Record(publicAssertionId: Value) | List(items: seq<Value>) | Text(text: string)

  /** What `[...assertionData]` spreads without throwing: an array, or a
      string, which spreads into its characters. */
  predicate Iterable(a: AssertionData) {
    a.List? || a.Text?
  }

  /** The request body; `localStore` is its truthiness. */
  datatype UpdateRequest = UpdateRequest(
    assertionData: AssertionData,
    blockchain: Value,
    contract: Value,
    tokenId: Value,
    hashFunctionId: Value,
    localStore: bool)

  /** The collaborator calls inside the try block that may reject. */
  datatype TryCall = CreateRecordCall | CacheCall | AddCall

  /** `req.body.hashFunctionId ?? CONTENT_ASSET_HASH_FUNCTION_ID`. */
  function HashFunctionId(req: UpdateRequest): Value {
    if req.hashFunctionId == Null then Int(ContentAssetHashFunctionId) else req.hashFunctionId
  }

  /** `assertionData.publicAssertionId` on data that is not missing; only a
      plain object carries one. */
  function PublicAssertionId(a: AssertionData): Value {
    if a.Record? then a.publicAssertionId else Null
  }

  /** The command names, in the order they run. */
  function CommandSequence(localStore: bool): seq<string> {
    (if localStore then [LocalStoreCommand] else []) + [ValidateUpdateAssertionCommand, NetworkUpdateCommand]
  }

  /** The object handed to `commandExecutor.add`. */
  function UpdateDescriptor(req: UpdateRequest, operationId: string, hashFunctionId: Value): Descriptor {
    var commands := CommandSequence(req.localStore);
    Descriptor(
      commands[0], commands[1..], 0, Some(5000), Some(3),
      map[
        "blockchain" := req.blockchain,
        "contract" := req.contract,
        "tokenId" := req.tokenId,
        "assertionId" := PublicAssertionId(req.assertionData),
        "hashFunctionId" := hashFunctionId,
        "operationId" := Str(operationId)],
      false)
  }

  /** The four steps before the body is read. */
  function Acknowledge(operationId: string): seq<Effect> {
    [ GenerateOperationId(UpdateStart),
      UpdateOperationIdStatus(operationId, UpdateInitStart, None, None),
      Respond(202, operationId),
      UpdateOperationIdStatus(operationId, UpdateInitEnd, None, None) ]
  }

  function FailedStatus(operationId: string): Effect {
    UpdateOperationIdStatus(operationId, OperationFailed, Some(FailedMessage), Some(UpdateRouteError))
  }

  /** What the try block does, and whether something in it threw. */
  datatype Attempt = Attempt(effects: seq<Effect>, threw: bool)

  /** The try block. `failing` names the collaborator call that rejects, if
      any; a rejected call has no effect. A missing `assertionData` throws in
      the log line that reads its `publicAssertionId`; with `localStore`,
      spreading a value that is not iterable into an array throws. */
  function TryBlock(req: UpdateRequest, operationId: string, operationName: string,
                    hashFunctionId: Value, failing: Option<TryCall>): Attempt
  {
    if failing == Some(CreateRecordCall) then Attempt([], true)
    else
      var recorded := [CreateOperationRecord(operationName, operationId, InProgress)];
      if req.assertionData.Missing? then Attempt(recorded, true)
      else if req.localStore && !Iterable(req.assertionData) then Attempt(recorded, true)
      else if failing == Some(CacheCall) then Attempt(recorded, true)
      else
        var cached := recorded + [CacheOperationData(operationId, req.localStore)];
        if failing == Some(AddCall) then Attempt(cached, true)
        else Attempt(cached + [Enqueue(UpdateDescriptor(req, operationId, hashFunctionId))], false)
  }

  /** Every effect of `handleUpdateRequest`, in order. */
  function Outcome(req: UpdateRequest, operationId: string, operationName: string, failing: Option<TryCall>): seq<Effect> {
    var attempt := TryBlock(req, operationId, operationName, HashFunctionId(req), failing);
    Acknowledge(operationId) + attempt.effects + (if attempt.threw then [FailedStatus(operationId)] else [])
  }

  /** `handleUpdateRequest`; `operationId` is what `generateOperationId`
      answers and `operationName` what `getOperationName` answers. */
  method HandleUpdateRequest(log: EffectLog, req: UpdateRequest, operationId: string,
                             operationName: string, failing: Option<TryCall>)
    modifies log
    ensures log.effects == old(log.effects) + Outcome(req, operationId, operationName, failing)
  {
    ghost var start := log.effects;
    log.Append(GenerateOperationId(UpdateStart));
    log.Append(UpdateOperationIdStatus(operationId, UpdateInitStart, None, None));
    log.Append(Respond(202, operationId));
    log.Append(UpdateOperationIdStatus(operationId, UpdateInitEnd, None, None));
    assert log.effects == start + Acknowledge(operationId);
    var hashFunctionId := if req.hashFunctionId == Null then Int(ContentAssetHashFunctionId) else req.hashFunctionId;
    var threw := TryToSchedule(log, req, operationId, operationName, hashFunctionId, failing);
    if threw {
      log.Append(FailedStatus(operationId));
    }
  }

  /** The try block, one call at a time. */
  method TryToSchedule(log: EffectLog, req: UpdateRequest, operationId: string, operationName: string,
                       hashFunctionId: Value, failing: Option<TryCall>)
    returns (threw: bool)
    modifies log
    ensures log.effects == old(log.effects) + TryBlock(req, operationId, operationName, hashFunctionId, failing).effects
    ensures threw == TryBlock(req, operationId, operationName, hashFunctionId, failing).threw
  {
    if failing == Some(CreateRecordCall) {
      return true;
    }
    log.Append(CreateOperationRecord(operationName, operationId, InProgress));
    if req.assertionData.Missing? {
      return true;
    }
    var commandSequence: seq<string> := [];
    if req.localStore {
      commandSequence := commandSequence + [LocalStoreCommand];
      if !Iterable(req.assertionData) {
        return true;
      }
    }
    if failing == Some(CacheCall) {
      return true;
    }
    log.Append(CacheOperationData(operationId, req.localStore));
    commandSequence := commandSequence + [ValidateUpdateAssertionCommand, NetworkUpdateCommand];
    if failing == Some(AddCall) {
      return true;
    }
    assert commandSequence == CommandSequence(req.localStore);
    log.Append(Enqueue(Descriptor(
      commandSequence[0], commandSequence[1..], 0, Some(5000), Some(3),
      map[
        "blockchain" := req.blockchain,
        "contract" := req.contract,
        "tokenId" := req.tokenId,
        "assertionId" := PublicAssertionId(req.assertionData),
        "hashFunctionId" := hashFunctionId,
        "operationId" := Str(operationId)],
      false)));
    return false;
  }

  // ---------------------------------------------------------------------
  // Properties

  /** Operation id, INIT_START, the 202 response and INIT_END come first and
      in this order, whatever the body holds; afterwards the only status
      written is FAILED. */
  lemma AcknowledgedFirst(req: UpdateRequest, operationId: string, operationName: string, failing: Option<TryCall>)
    ensures var effects := Outcome(req, operationId, operationName, failing);
      && |effects| >= 4
      && effects[..4] == Acknowledge(operationId)
      && forall i :: 4 <= i < |effects| && effects[i].UpdateOperationIdStatus? ==> effects[i] == FailedStatus(operationId)
  {
  }

  /** A command is enqueued only after the IN_PROGRESS record is created. */
  lemma RecordCreatedBeforeEnqueue(req: UpdateRequest, operationId: string, operationName: string, failing: Option<TryCall>)
    ensures var effects := Outcome(req, operationId, operationName, failing);
      forall j :: 0 <= j < |effects| && effects[j].Enqueue? ==>
        exists i :: 0 <= i < j && effects[i] == CreateOperationRecord(operationName, operationId, InProgress)
  {
    var effects := Outcome(req, operationId, operationName, failing);
    forall j | 0 <= j < |effects| && effects[j].Enqueue?
      ensures exists i :: 0 <= i < j && effects[i] == CreateOperationRecord(operationName, operationId, InProgress)
    {
      assert effects[4] == CreateOperationRecord(operationName, operationId, InProgress);
    }
  }

  /** The try block throws iff a collaborator call rejected, the assertion
      data is missing, or `localStore` is set on data that is not iterable
      (neither an array nor a string); it enqueues one command when it does not throw and none when it does. */
  lemma TryBlockEnqueuesUnlessThrown(req: UpdateRequest, operationId: string, operationName: string,
                                     hashFunctionId: Value, failing: Option<TryCall>)
    ensures var attempt := TryBlock(req, operationId, operationName, hashFunctionId, failing);
      && (attempt.threw <==> failing.Some? || req.assertionData.Missing? || (req.localStore && !Iterable(req.assertionData)))
      && EnqueueCount(attempt.effects) == if attempt.threw then 0 else 1
  {
    var attempt := TryBlock(req, operationId, operationName, hashFunctionId, failing);
    if failing == None && !req.assertionData.Missing? && !(req.localStore && !Iterable(req.assertionData)) {
      var cached := [CreateOperationRecord(operationName, operationId, InProgress), CacheOperationData(operationId, req.localStore)];
      var e := Enqueue(UpdateDescriptor(req, operationId, hashFunctionId));
      assert attempt.effects == cached + [e];
      EnqueueCountAppend(cached, [e]);
      assert EnqueueCount([e]) == 1 by {
        assert [e][..0] == [];
      }
    } else if failing.Some? {
      match failing.value
      case CreateRecordCall =>
      case CacheCall =>
      case AddCall =>
    }
  }

  /** The request fails, with the FAILED status as the last effect, iff no
      command is enqueued, iff a collaborator call rejected, the assertion data
      is missing, or `localStore` is set on data that is not iterable (neither
      an array nor a string); at most one command is ever enqueued. */
  lemma FailsIffNothingEnqueued(req: UpdateRequest, operationId: string, operationName: string, failing: Option<TryCall>)
    ensures var effects := Outcome(req, operationId, operationName, failing);
      var threw := failing.Some? || req.assertionData.Missing? || (req.localStore && !Iterable(req.assertionData));
      && (effects[|effects| - 1] == FailedStatus(operationId) <==> threw)
      && (EnqueueCount(effects) == 0 <==> threw)
      && EnqueueCount(effects) <= 1
  {
    var attempt := TryBlock(req, operationId, operationName, HashFunctionId(req), failing);
    var tail := if attempt.threw then [FailedStatus(operationId)] else [];
    TryBlockEnqueuesUnlessThrown(req, operationId, operationName, HashFunctionId(req), failing);
    EnqueueCountAppend(Acknowledge(operationId), attempt.effects);
    EnqueueCountAppend(Acknowledge(operationId) + attempt.effects, tail);
    assert EnqueueCount(Acknowledge(operationId)) == 0;
    assert EnqueueCount(tail) == 0;
  }

  /** The enqueued descriptor: head and tail of the command list, with
      `localStoreCommand` in front only under `localStore`; fixed timing; data
      with exactly the six keys, the hash function id defaulting only when the
      body's is null or undefined. */
  lemma DescriptorShape(req: UpdateRequest, operationId: string, hashFunctionId: Value)
    ensures var d := UpdateDescriptor(req, operationId, hashFunctionId);
      && (!req.localStore ==> d.name == ValidateUpdateAssertionCommand && d.sequence == [NetworkUpdateCommand])
      && (req.localStore ==>
            d.name == LocalStoreCommand && d.sequence == [ValidateUpdateAssertionCommand, NetworkUpdateCommand])
      && [d.name] + d.sequence == CommandSequence(req.localStore)
      && d.delay == 0 && d.period == Some(5000) && d.retries == Some(3) && !d.transactional
      && d.data.Keys == {"blockchain", "contract", "tokenId", "assertionId", "hashFunctionId", "operationId"}
      && d.data["assertionId"] == PublicAssertionId(req.assertionData)
      && d.data["operationId"] == Str(operationId)
  {
  }

  /** When nothing throws, seven effects happen and the last enqueues the
      descriptor, whose hash function id falls back to
      `CONTENT_ASSET_HASH_FUNCTION_ID` only when the body's is null or
      undefined (an explicit id, even 0 or false, is kept). */
  lemma SuccessEnqueuesDescriptor(req: UpdateRequest, operationId: string, operationName: string)
    requires !req.assertionData.Missing? && !(req.localStore && !Iterable(req.assertionData))
    ensures var effects := Outcome(req, operationId, operationName, None);
      && |effects| == 7
      && effects[4] == CreateOperationRecord(operationName, operationId, InProgress)
      && effects[5] == CacheOperationData(operationId, req.localStore)
      && effects[6].Enqueue?
      && effects[6].command.name == (if req.localStore then LocalStoreCommand else ValidateUpdateAssertionCommand)
      && effects[6].command.data["hashFunctionId"]
         == (if req.hashFunctionId == Null then Int(ContentAssetHashFunctionId) else req.hashFunctionId)
  {
  }

  /** Under `localStore`, a plain-object body throws before any data is cached
      or any command enqueued. */
  lemma LocalStoreObjectThrowsBeforeCaching(req: UpdateRequest, operationId: string, operationName: string,
                                            failing: Option<TryCall>)
    requires req.localStore && req.assertionData.Record?
    requires failing != Some(CreateRecordCall)
    ensures Outcome(req, operationId, operationName, failing)
            == Acknowledge(operationId)
               + [CreateOperationRecord(operationName, operationId, InProgress), FailedStatus(operationId)]
  {
  }

  /** Under `localStore`, a string body spreads into its characters without
      throwing: it is cached and `localStoreCommand` is enqueued, with an
      undefined `assertionId`. */
  lemma LocalStoreStringIsScheduled(req: UpdateRequest, operationId: string, operationName: string)
    requires req.localStore && req.assertionData.Text?
    ensures var effects := Outcome(req, operationId, operationName, None);
      && |effects| == 7
      && effects[5] == CacheOperationData(operationId, true)
      && effects[6].Enqueue?
      && effects[6].command.name == LocalStoreCommand
      && effects[6].command.data["assertionId"] == Null
      && FailedStatus(operationId) !in effects
  {
  }
}
