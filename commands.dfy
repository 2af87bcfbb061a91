/**
 * Shared vocabulary of the command pipeline: the values a command's data
 * payload holds, the descriptors handed to the command executor, the three
 * ways an `execute` can end, and the log of everything a command does to the
 * world outside it (reads of the blockchain and of the triple store, status
 * writes, enqueued commands, events, submitted transactions).
 */
module Commands {

  datatype Option<+T> = None | Some(value: T)

  datatype Result<+T> = Ok(value: T) | Err(error: Failure)

  /** Timing of an on-chain service agreement, as the epoch check reads it.
      `epochsNum` is optional: the field the code reads may be missing. */
  datatype ServiceAgreement = ServiceAgreement(startTime: int, epochLength: int, epochsNum: Option<int>)

  /** A JavaScript value as it appears in a command's data payload.
      `Null` stands for both `null` and `undefined`. */
  datatype Value = Null | Str(s: string) | Int(n: int) | Bool(b: bool) | Agreement(agreement: ServiceAgreement)

  /** A command's data payload: a plain object. Spreading `{...a, ...b}` is `a + b`. */
  type Data = map<string, Value>

  /** Property access on a plain object: a missing key reads as `undefined`. */
  function Get(data: Data, key: string): Value
  {
    if key in data then data[key] else Null
  }

  /** True when `data[key] ?? fallback` takes the fallback. */
  predicate Nullish(data: Data, key: string) {
    Get(data, key) == Null
  }

  /** A commit submission as read from the chain, identity and score already numeric. */
  datatype Commit = Commit(identityId: int, score: int)

  /** The object passed to `commandExecutor.add`. */
  datatype Descriptor = Descriptor(
    name: string,
    sequence: seq<string>,
    delay: int,
    period: Option<int>,
    retries: Option<int>,
    data: Data,
    transactional: bool)

  /** Why an `execute` rejected. */
  datatype Failure =
    | TypeError(message: string)
    | DivisionByZero
    | TransactionError(reason: string)
    | CollaboratorError(call: string)
    | QueryParseError(iri: string)

  /** How an `execute` ends: `Command.empty()`, `continueSequence(data, sequence)`,
      or a rejected promise. */
  datatype CommandResult = Empty | Continue(data: Data, sequence: seq<string>) | Fails(error: Failure)

  /**
   * The `default(map)` builder every command class has: a command named `name`
   * with delay 0, not transactional, on which `Object.assign` copies every key
   * of `overrides`.
   */
  function Defaults(name: string, overrides: Data): (command: Data)
    ensures command.Keys == overrides.Keys + {"name", "delay", "transactional"}
    ensures forall k :: k in overrides ==> command[k] == overrides[k]
    ensures "name" !in overrides ==> command["name"] == Str(name)
    ensures "delay" !in overrides ==> command["delay"] == Int(0)
    ensures "transactional" !in overrides ==> command["transactional"] == Bool(false)
  {
    map["name" := Str(name), "delay" := Int(0), "transactional" := Bool(false)] + overrides
  }

  /** Reads of external collaborators (blockchain gateway, triple store). */
  datatype Read =
    | ServiceAgreementRead
    | CommitWindowRead
    | CommitSubmissionsRead
    | IdentityIdRead
    | R1Read
    | ChallengeRead
    | AssertionRead
    | TopCommitSubmissionsRead
    | UnfinalizedAssertionIdRead
    | AssertionIdsRead
    | LatestAssertionIdRead
    | AgreementDataRead
    | R0Read
    | AssertionSizeRead

  datatype AgreementStatus = Expired

  datatype ProofEvent = CalculateProofsStart | CalculateProofsEnd | SubmitProofsStart | SubmitProofsEnd

  datatype ErrorType = GetAssertionIdError | PublishStartError | UpdateRouteError

  datatype OperationIdStatus = UpdateStart | UpdateInitStart | UpdateInitEnd | OperationFailed

  datatype OperationStatus = InProgress

  /** One observable action of a command or controller, in the order it happens. */
  datatype Effect =
    | Query(read: Read)
    | SetAgreementStatus(operationId: Value, agreementId: Value, agreementStatus: AgreementStatus)
    | Enqueue(command: Descriptor)
    | EmitEvent(event: ProofEvent, operationId: Value, agreementId: Value, epoch: Value)
    | MarkOperationFailed(operationId: Value, message: string, errorType: ErrorType)
    | SendProof(leaf: string, proof: seq<string>)
    | GenerateOperationId(initial: OperationIdStatus)
    | UpdateOperationIdStatus(id: string, status: OperationIdStatus, statusMessage: Option<string>, statusError: Option<ErrorType>)
    | Respond(code: int, respondedId: string)
    | CreateOperationRecord(operationName: string, recordId: string, recordStatus: OperationStatus)
    | CacheOperationData(cachedId: string, asArray: bool)

  /** What one `execute` does: its effects in order, and how it ends. */
  datatype Run = Run(effects: seq<Effect>, result: CommandResult)

  /** Number of commands enqueued by a sequence of effects. */
  function EnqueueCount(effects: seq<Effect>): (n: nat)
    ensures n <= |effects|
    ensures n == 0 <==> forall i :: 0 <= i < |effects| ==> !effects[i].Enqueue?
  {
    if effects == [] then 0
    else EnqueueCount(effects[..|effects| - 1]) + (if effects[|effects| - 1].Enqueue? then 1 else 0)
  }

  lemma {:induction false} EnqueueCountAppend(a: seq<Effect>, b: seq<Effect>)
    ensures EnqueueCount(a + b) == EnqueueCount(a) + EnqueueCount(b)
    decreases |b|
  {
    if b == [] {
      assert a + b == a;
    } else {
      var b' := b[..|b| - 1];
      assert (a + b)[..|a + b| - 1] == a + b';
      EnqueueCountAppend(a, b');
    }
  }

  /** The outside world a command acts on, seen as the log of its effects. */
  class EffectLog {
    var effects: seq<Effect>

    constructor ()
      ensures effects == []
    {
      effects := [];
    }

    method Append(e: Effect)
      modifies this
      ensures effects == old(effects) + [e]
    {
      effects := effects + [e];
    }
  }
}
