/**
 * The per-agreement, per-epoch scheduler step (`EpochCheckCommand`): expiry,
 * the commit window, and the choice between calculating proofs and
 * submitting a commit. Modelled as the code is written: the two `forEach`
 * scans discard their callbacks' return values, so `alreadyCommitted` is
 * always false and the rank is always 0.
 */
module EpochCheck {
  import opened Commands

  const Name := "epochCheckCommand"
  const CalculateProofsName := "calculateProofsCommand"
  const SubmitCommitName := "submitCommitCommand"

  /** What the blockchain answers to the reads this command may make. */
  datatype ChainView = ChainView(
    agreement: ServiceAgreement,
    commitWindowOpen: bool,
    commits: seq<Commit>,
    identityId: int,
    r1: int)

  /** The data an epoch check is created with: a numeric epoch, and a
      `serviceAgreement` that, when present, is an agreement or nullish. */
  predicate WellFormed(data: Data) {
    && Get(data, "epoch").Int?
    && (Get(data, "serviceAgreement").Null? || Get(data, "serviceAgreement").Agreement?)
  }

  /** The agreement carried in the command's data, if any. */
  function Supplied(data: Data): Option<ServiceAgreement> {
    if Get(data, "serviceAgreement").Agreement? then Some(Get(data, "serviceAgreement").agreement) else None
  }

  /** The agreement the check works with: the supplied one, or the chain's. */
  function AgreementUsed(data: Data, chain: ChainView): ServiceAgreement {
    if Supplied(data).Some? then Supplied(data).value else chain.agreement
  }

  /** `serviceAgreement.epochsNum < epoch`; a missing field compares false. */
  predicate AssetLifetimeExpired(agreement: ServiceAgreement, epoch: int) {
    agreement.epochsNum.Some? && agreement.epochsNum.value < epoch
  }

  /** `alreadyCommitted`: a `forEach` over the commits. The callback returns
      `true` for a commit of `identityId`, but `forEach` discards what its
      callback returns: the scan visits every commit and the method itself
      returns `false`. */
  function AlreadyCommitted(commits: seq<Commit>, identityId: Value): bool
  {
    if commits == [] then false
    else AlreadyCommitted(commits[1..], identityId)
  }

  /** The commits in reverse order, `[...commits].reverse()`. */
  function Reversed(commits: seq<Commit>): seq<Commit>
  {
    seq(|commits|, i requires 0 <= i < |commits| => commits[|commits| - 1 - i])
  }

  /** Reversing twice gives back the commits. */
  lemma ReversedReversed(commits: seq<Commit>)
    ensures Reversed(Reversed(commits)) == commits
  {
    var r := Reversed(Reversed(commits));
    assert forall i :: 0 <= i < |commits| ==> r[i] == commits[i];
  }

  /** The `forEach` of `getPreviousIdentityIdAndRank` from `index` on. For a
      commit whose score exceeds `score` the callback returns its identity
      and the rank `count - index - 1`; `forEach` discards that value, so
      every callback runs and the method falls through to
      `{prevId: '', rank: 0}`. */
  function RankScan(reversed: seq<Commit>, index: nat, count: int, score: int): (string, int)
    decreases |reversed| - index
  {
    if index >= |reversed| then ("", 0)
    else RankScan(reversed, index + 1, count, score)
  }

  /** `getPreviousIdentityIdAndRank`, with `calculateScore()` given as `score`. */
  function PreviousIdentityIdAndRank(commits: seq<Commit>, score: int): (string, int) {
    RankScan(Reversed(commits), 0, |commits|, score)
  }

  /** The self-rescheduled check built by `scheduleNextEpochCheck`. */
  function NextEpochCheck(blockchain: Value, agreementId: Value, epoch: int, agreement: ServiceAgreement, now: int): Descriptor {
    Descriptor(
      Name, [], agreement.startTime + agreement.epochLength * epoch - now, None, None,
      map["blockchain" := blockchain, "agreementId" := agreementId,
          "epoch" := Int(epoch + 1), "serviceAgreement" := Agreement(agreement)],
      false)
  }

  /** The identity used: `command.data.identityId ?? getIdentityId()`. */
  function IdentityUsed(data: Data, chain: ChainView): Value {
    if Nullish(data, "identityId") then Int(chain.identityId) else Get(data, "identityId")
  }

  /** Effects and result of `execute`, step by step as the code runs. */
  function Outcome(data: Data, chain: ChainView, score: int, now: int): Run
    requires WellFormed(data)
  {
    var epoch := Get(data, "epoch").n;
    var agreement := AgreementUsed(data, chain);
    var load := if Supplied(data).None? then [Query(ServiceAgreementRead)] else [];
    if AssetLifetimeExpired(agreement, epoch) then
      Run(load + [SetAgreementStatus(Get(data, "operationId"), Get(data, "agreementId"), Expired)], Empty)
    else if !chain.commitWindowOpen then
      Run(load + [Query(CommitWindowRead),
                  Enqueue(NextEpochCheck(Get(data, "blockchain"), Get(data, "agreementId"), epoch, agreement, now))],
          Empty)
    else
      Run(load + [Query(CommitWindowRead)] + OpenWindowEffects(data, chain, agreement, score), Empty)
  }

  /** The effects of `execute` once the commit window is known to be open. */
  function OpenWindowEffects(data: Data, chain: ChainView, agreement: ServiceAgreement, score: int): seq<Effect> {
    var identityId := IdentityUsed(data, chain);
    var fetched := [Query(CommitSubmissionsRead)] + (if Nullish(data, "identityId") then [Query(IdentityIdRead)] else []);
    if AlreadyCommitted(chain.commits, identityId) then
      fetched + [Enqueue(Descriptor(CalculateProofsName, [], 0, None, None,
                                    data + map["serviceAgreement" := Agreement(agreement), "identityId" := identityId],
                                    false))]
    else
      var prevAndRank := PreviousIdentityIdAndRank(chain.commits, score);
      var prevId, rank := prevAndRank.0, prevAndRank.1;
      var submit := Descriptor(SubmitCommitName, [], 0, None, None,
                               data + map["prevId" := Str(prevId), "serviceAgreement" := Agreement(agreement), "identityId" := identityId],
                               false);
      fetched + [Query(R1Read)] + (if rank < chain.r1 then [Enqueue(submit)] else [])
  }

  /** `execute`, acting on the outside world one step at a time. */
  method Execute(log: EffectLog, data: Data, chain: ChainView, score: int, now: int) returns (result: CommandResult)
    requires WellFormed(data)
    modifies log
    ensures log.effects == old(log.effects) + Outcome(data, chain, score, now).effects
    ensures result == Outcome(data, chain, score, now).result
  {
    var epoch := Get(data, "epoch").n;
    var blockchain, agreementId, operationId := Get(data, "blockchain"), Get(data, "agreementId"), Get(data, "operationId");
    var agreement: ServiceAgreement;
    if Supplied(data).Some? {
      agreement := Supplied(data).value;
    } else {
      log.Append(Query(ServiceAgreementRead));
      agreement := chain.agreement;
    }

    if AssetLifetimeExpired(agreement, epoch) {
      log.Append(SetAgreementStatus(operationId, agreementId, Expired));
      return Empty;
    }
    log.Append(Query(CommitWindowRead));
    if !chain.commitWindowOpen {
      ScheduleNextEpochCheck(log, blockchain, agreementId, epoch, agreement, now);
      return Empty;
    }
    ghost var before := log.effects;
    CommitOrProve(log, data, chain, agreement, score);
    assert log.effects == before + OpenWindowEffects(data, chain, agreement, score);
    return Empty;
  }

  /** The part of `execute` after the window check: read the commits and the
      identity, then enqueue proof calculation or a commit. */
  method CommitOrProve(log: EffectLog, data: Data, chain: ChainView, agreement: ServiceAgreement, score: int)
    modifies log
    ensures log.effects == old(log.effects) + OpenWindowEffects(data, chain, agreement, score)
  {
    log.Append(Query(CommitSubmissionsRead));
    var identityId := Get(data, "identityId");
    if identityId == Null {
      log.Append(Query(IdentityIdRead));
      identityId := Int(chain.identityId);
    }

    if AlreadyCommitted(chain.commits, identityId) {
      log.Append(Enqueue(Descriptor(CalculateProofsName, [], 0, None, None,
                                    data + map["serviceAgreement" := Agreement(agreement), "identityId" := identityId],
                                    false)));
      return;
    }

    var prevAndRank := PreviousIdentityIdAndRank(chain.commits, score);
    var prevId, rank := prevAndRank.0, prevAndRank.1;
    log.Append(Query(R1Read));
    if rank < chain.r1 {
      log.Append(Enqueue(Descriptor(SubmitCommitName, [], 0, None, None,
                                    data + map["prevId" := Str(prevId), "serviceAgreement" := Agreement(agreement), "identityId" := identityId],
                                    false)));
    }
  }

  /** `scheduleNextEpochCheck`: enqueue the check for the next epoch. */
  method ScheduleNextEpochCheck(log: EffectLog, blockchain: Value, agreementId: Value, epoch: int, agreement: ServiceAgreement, now: int)
    modifies log
    ensures log.effects == old(log.effects) + [Enqueue(NextEpochCheck(blockchain, agreementId, epoch, agreement, now))]
  {
    var nextEpochStartTime := agreement.startTime + agreement.epochLength * epoch;
    log.Append(Enqueue(Descriptor(
      Name, [], nextEpochStartTime - now, None, None,
      map["blockchain" := blockchain, "agreementId" := agreementId,
          "epoch" := Int(epoch + 1), "serviceAgreement" := Agreement(agreement)],
      false)));
  }

  /** `default(map)`. */
  function Default(overrides: Data): (command: Data)
    ensures command == Defaults(Name, overrides)
  {
    Defaults(Name, overrides)
  }

  // ---------------------------------------------------------------------
  // Properties of `execute`

  /** The chain's agreement is read only when the data carries none;
      otherwise the supplied agreement is the one every enqueued command carries. */
  lemma AgreementFetchedOnlyWhenAbsent(data: Data, chain: ChainView, score: int, now: int)
    requires WellFormed(data)
    ensures var run := Outcome(data, chain, score, now);
      (Query(ServiceAgreementRead) in run.effects <==> Supplied(data).None?)
      && forall i :: 0 <= i < |run.effects| && run.effects[i].Enqueue? ==>
           Get(run.effects[i].command.data, "serviceAgreement") == Agreement(AgreementUsed(data, chain))
  {
    var run := Outcome(data, chain, score, now);
    var epoch, agreement := Get(data, "epoch").n, AgreementUsed(data, chain);
    var load := if Supplied(data).None? then [Query(ServiceAgreementRead)] else [];
    var rest: seq<Effect>;
    if AssetLifetimeExpired(agreement, epoch) {
      rest := [SetAgreementStatus(Get(data, "operationId"), Get(data, "agreementId"), Expired)];
    } else if !chain.commitWindowOpen {
      rest := [Query(CommitWindowRead),
               Enqueue(NextEpochCheck(Get(data, "blockchain"), Get(data, "agreementId"), epoch, agreement, now))];
    } else {
      OpenWindowCarriesAgreement(data, chain, agreement, score);
      rest := [Query(CommitWindowRead)] + OpenWindowEffects(data, chain, agreement, score);
    }
    assert run.effects == load + rest;
    assert Query(ServiceAgreementRead) !in rest;
    assert forall i :: 0 <= i < |rest| && rest[i].Enqueue? ==>
             Get(rest[i].command.data, "serviceAgreement") == Agreement(agreement);
  }

  /** The open-window effects never read the agreement, and every command they
      enqueue carries the given one. */
  lemma OpenWindowCarriesAgreement(data: Data, chain: ChainView, agreement: ServiceAgreement, score: int)
    ensures var fx := OpenWindowEffects(data, chain, agreement, score);
      && Query(ServiceAgreementRead) !in fx
      && forall i :: 0 <= i < |fx| && fx[i].Enqueue? ==>
           Get(fx[i].command.data, "serviceAgreement") == Agreement(agreement)
  {
  }

  /** Expiry is strict and needs the field: the last epoch of an agreement is
      not expired, and an agreement without `epochsNum` never expires. */
  lemma ExpiryIsStrict(agreement: ServiceAgreement, epoch: int)
    ensures agreement.epochsNum == Some(epoch) ==> !AssetLifetimeExpired(agreement, epoch)
    ensures agreement.epochsNum == Some(epoch) ==> AssetLifetimeExpired(agreement, epoch + 1)
    ensures agreement.epochsNum.None? ==> !AssetLifetimeExpired(agreement, epoch)
  {
  }

  /** An expired agreement gets status EXPIRED and nothing else happens:
      no window query, no enqueue. */
  lemma ExpiredMarksAndStops(data: Data, chain: ChainView, score: int, now: int)
    requires WellFormed(data)
    requires AssetLifetimeExpired(AgreementUsed(data, chain), Get(data, "epoch").n)
    ensures var run := Outcome(data, chain, score, now);
      && run.result == Empty
      && run.effects[|run.effects| - 1] == SetAgreementStatus(Get(data, "operationId"), Get(data, "agreementId"), Expired)
      && Query(CommitWindowRead) !in run.effects
      && EnqueueCount(run.effects) == 0
  {
  }

  /** A closed window enqueues exactly one epoch check, for the next epoch,
      carrying only the four identifying fields, delayed until the start of
      the current epoch without clamping. */
  lemma ClosedWindowReschedules(data: Data, chain: ChainView, score: int, now: int)
    requires WellFormed(data)
    requires !AssetLifetimeExpired(AgreementUsed(data, chain), Get(data, "epoch").n)
    requires !chain.commitWindowOpen
    ensures var run := Outcome(data, chain, score, now);
      var epoch, a := Get(data, "epoch").n, AgreementUsed(data, chain);
      && run.result == Empty
      && EnqueueCount(run.effects) == 1
      && var d := run.effects[|run.effects| - 1].command;
      && run.effects[|run.effects| - 1].Enqueue?
      && d.name == Name
      && d.sequence == []
      && d.delay == a.startTime + a.epochLength * epoch - now
      && d.data.Keys == {"blockchain", "agreementId", "epoch", "serviceAgreement"}
      && d.data["epoch"] == Int(epoch + 1)
      && d.data["blockchain"] == Get(data, "blockchain")
      && d.data["agreementId"] == Get(data, "agreementId")
      && d.data["serviceAgreement"] == Agreement(a)
  {
    var run := Outcome(data, chain, score, now);
    var load := if Supplied(data).None? then [Query(ServiceAgreementRead)] else [];
    var tail := [Query(CommitWindowRead), Enqueue(NextEpochCheck(Get(data, "blockchain"), Get(data, "agreementId"), Get(data, "epoch").n, AgreementUsed(data, chain), now))];
    assert run.effects == load + tail;
    EnqueueCountAppend(load, tail);
    assert tail[..1] == [Query(CommitWindowRead)];
  }

  /** Whatever the commits and the identity, `alreadyCommitted` answers false,
      even when one of its callbacks found this node's commit. */
  lemma {:induction false} AlreadyCommittedIsFalse(commits: seq<Commit>, identityId: Value)
    ensures !AlreadyCommitted(commits, identityId)
    decreases |commits|
  {
    if commits != [] {
      AlreadyCommittedIsFalse(commits[1..], identityId);
    }
  }

  /** The rank is 0 and the previous identity empty for every commit list and
      score, even when some commit has a worse (greater) score. */
  lemma {:induction false} RankIsAlwaysZero(commits: seq<Commit>, score: int)
    ensures PreviousIdentityIdAndRank(commits, score) == ("", 0)
  {
    RankScanIsEmpty(Reversed(commits), 0, |commits|, score);
  }

  lemma {:induction false} RankScanIsEmpty(reversed: seq<Commit>, index: nat, count: int, score: int)
    ensures RankScan(reversed, index, count, score) == ("", 0)
    decreases |reversed| - index
  {
    if index < |reversed| {
      RankScanIsEmpty(reversed, index + 1, count, score);
    }
  }

  /** So the `calculateProofsCommand` branch is never taken. */
  lemma NeverCalculatesProofs(data: Data, chain: ChainView, score: int, now: int)
    requires WellFormed(data)
    ensures var run := Outcome(data, chain, score, now);
      forall i :: 0 <= i < |run.effects| && run.effects[i].Enqueue? ==> run.effects[i].command.name != CalculateProofsName
  {
    AlreadyCommittedIsFalse(chain.commits, IdentityUsed(data, chain));
  }

  /** The open-window effects enqueue one command iff `0 < R1`, and then it
      is the commit submission, last. */
  lemma {:induction false} OpenWindowSubmitsIffR1Positive(data: Data, chain: ChainView, agreement: ServiceAgreement, score: int)
    ensures var fx := OpenWindowEffects(data, chain, agreement, score);
      && EnqueueCount(fx) == (if 0 < chain.r1 then 1 else 0)
      && (0 < chain.r1 ==>
            fx[|fx| - 1] == Enqueue(Descriptor(SubmitCommitName, [], 0, None, None,
                                               data + map["prevId" := Str(""), "serviceAgreement" := Agreement(agreement),
                                                          "identityId" := IdentityUsed(data, chain)],
                                               false)))
  {
    AlreadyCommittedIsFalse(chain.commits, IdentityUsed(data, chain));
    RankIsAlwaysZero(chain.commits, score);
    var fx := OpenWindowEffects(data, chain, agreement, score);
    var pre := [Query(CommitSubmissionsRead)] + (if Nullish(data, "identityId") then [Query(IdentityIdRead)] else [])
               + [Query(R1Read)];
    assert forall i :: 0 <= i < |pre| ==> pre[i].Query?;
    if 0 < chain.r1 {
      var e := fx[|fx| - 1];
      assert fx == pre + [e];
      EnqueueCountAppend(pre, [e]);
      assert [e][..0] == [];
    } else {
      assert fx == pre;
    }
  }

  /** With the window open, a commit is submitted iff `0 < R1`; its data is the
      command's data with `prevId`, `serviceAgreement` and `identityId` set,
      the data's own `identityId` taking precedence over the chain's. */
  lemma SubmitCommitIffR1Positive(data: Data, chain: ChainView, score: int, now: int)
    requires WellFormed(data)
    requires !AssetLifetimeExpired(AgreementUsed(data, chain), Get(data, "epoch").n)
    requires chain.commitWindowOpen
    ensures var run := Outcome(data, chain, score, now);
      && run.result == Empty
      && (EnqueueCount(run.effects) == 1 <==> 0 < chain.r1)
      && (0 < chain.r1 ==>
            var d := run.effects[|run.effects| - 1].command;
            && run.effects[|run.effects| - 1].Enqueue?
            && d.name == SubmitCommitName
            && d.delay == 0 && !d.transactional && d.sequence == []
            && d.data == data + map["prevId" := Str(""),
                                    "serviceAgreement" := Agreement(AgreementUsed(data, chain)),
                                    "identityId" := IdentityUsed(data, chain)])
      && (!Nullish(data, "identityId") ==> IdentityUsed(data, chain) == data["identityId"])
  {
    var agreement := AgreementUsed(data, chain);
    var fx := OpenWindowEffects(data, chain, agreement, score);
    OpenWindowSubmitsIffR1Positive(data, chain, agreement, score);
    var head := (if Supplied(data).None? then [Query(ServiceAgreementRead)] else []) + [Query(CommitWindowRead)];
    assert Outcome(data, chain, score, now).effects == head + fx;
    assert forall i :: 0 <= i < |head| ==> head[i].Query?;
    EnqueueCountAppend(head, fx);
  }

  /** Every path returns `Command.empty()` and enqueues at most one command. */
  lemma AlwaysEmptyAtMostOneEnqueue(data: Data, chain: ChainView, score: int, now: int)
    requires WellFormed(data)
    ensures Outcome(data, chain, score, now).result == Empty
    ensures EnqueueCount(Outcome(data, chain, score, now).effects) <= 1
  {
    var a := AgreementUsed(data, chain);
    if AssetLifetimeExpired(a, Get(data, "epoch").n) {
      ExpiredMarksAndStops(data, chain, score, now);
    } else if !chain.commitWindowOpen {
      ClosedWindowReschedules(data, chain, score, now);
    } else {
      SubmitCommitIffR1Positive(data, chain, score, now);
    }
  }

  /** A closed window: start 1000, epoch length 600, epoch 2, window closed.
      The check re-enqueued is for epoch 3, delayed by 2200 - now. */
  lemma ClosedWindowScenario(now: int)
    ensures var data := map["epoch" := Int(2), "serviceAgreement" := Agreement(ServiceAgreement(1000, 600, Some(5)))];
      var run := Outcome(data, ChainView(ServiceAgreement(0, 0, None), false, [], 0, 0), 0, now);
      && run.effects[|run.effects| - 1].Enqueue?
      && run.effects[|run.effects| - 1].command.delay == 2200 - now
      && run.effects[|run.effects| - 1].command.data["epoch"] == Int(3)
  {
  }
}
