/**
 * The bid check that starts a publish (`PublishScheduleMessagesCommand`): on
 * the first batch only, compute the service agreement's bid per node with
 * BigNumber integer arithmetic, count the neighbours whose ask does not
 * exceed it, and refuse the publish when fewer than `minAckResponses` do.
 * Otherwise the command delegates to the generic schedule-messages step.
 */
module PublishScheduleMessages {
  import opened Commands

  const Name := "publishScheduleMessagesCommand"
  const NotEnoughNodesMessage := "Unable to start publish, not enough nodes in neighbourhood satisfy the bid."

  /** The agreement figures read from the chain (`getAgreementData`). */
  datatype AgreementData = AgreementData(tokenAmount: int, updateTokenAmount: int, epochsNumber: int)

  /** What the blockchain answers: agreement data, `R0` and the assertion size. */
  datatype ChainView = ChainView(agreement: AgreementData, r0: int, assertionSize: int)

  /** A neighbour as listed in `leftoverNodes`; its ask is a decimal token amount. */
  datatype NeighbourNode = NeighbourNode(ask: string)

  // ---------------------------------------------------------------------
  // The bid

  function Abs(x: int): nat {
    if x < 0 then -x else x
  }

  lemma DivisionBounds(a: nat, b: nat)
    requires 0 < b
    ensures 0 <= a / b
    ensures (a / b) * b <= a < (a / b) * b + b
  {
    assert a == (a / b) * b + a % b;
  }

  /** BigNumber `div`: the quotient truncated toward zero. */
  function TruncDiv(a: int, b: int): (q: int)
    requires b != 0
    ensures 0 <= a && 0 < b ==> q * b <= a < q * b + b
    ensures Abs(q) == Abs(a) / Abs(b)
    ensures q != 0 ==> ((q < 0) <==> ((a < 0) != (b < 0)))
  {
    var m := Abs(a) / Abs(b);
    DivisionBounds(Abs(a), Abs(b));
    if (a < 0) == (b < 0) then m else -m
  }

  /** Whatever the signs, the magnitude of the quotient is the floor of the
      quotient of the magnitudes. */
  lemma TruncDivMagnitude(a: int, b: int)
    requires b != 0
    ensures Abs(TruncDiv(a, b)) * Abs(b) <= Abs(a) < Abs(TruncDiv(a, b)) * Abs(b) + Abs(b)
  {
    DivisionBounds(Abs(a), Abs(b));
  }

  /** `r0 * epochsNumber * assertionSize`. */
  function Divisor(chain: ChainView): int {
    chain.r0 * chain.agreement.epochsNumber * chain.assertionSize
  }

  /** `(tokenAmount + updateTokenAmount) * 1024`. */
  function Numerator(chain: ChainView): int {
    (chain.agreement.tokenAmount + chain.agreement.updateTokenAmount) * 1024
  }

  /** The bid per node: the numerator divided by the divisor, truncated, plus
      one wei; a zero divisor makes BigNumber throw. For non-negative amounts
      the bid is the least integer strictly above the exact quotient. */
  function ServiceAgreementBid(chain: ChainView): (bid: Result<int>)
    ensures bid.Err? <==> Divisor(chain) == 0
    ensures bid.Err? ==> bid.error == DivisionByZero
    ensures bid.Ok? && 0 <= Numerator(chain) && 0 < Divisor(chain) ==>
      (bid.value - 1) * Divisor(chain) <= Numerator(chain) < bid.value * Divisor(chain)
  {
    if Divisor(chain) == 0 then Err(DivisionByZero)
    else Ok(TruncDiv(Numerator(chain), Divisor(chain)) + 1)
  }

  // ---------------------------------------------------------------------
  // Counting the valid bids

  /** The asks converted to wei by `convertToWei`. */
  function AsksInWei(nodes: seq<NeighbourNode>, toWei: string -> int): seq<int>
  {
    seq(|nodes|, i requires 0 <= i < |nodes| => toWei(nodes[i].ask))
  }

  /** How many asks are at most the bid. */
  function ValidBidCount(asks: seq<int>, bid: int): (n: nat)
    ensures n <= |asks|
  {
    if asks == [] then 0
    else ValidBidCount(asks[..|asks| - 1], bid) + (if asks[|asks| - 1] <= bid then 1 else 0)
  }

  /** The count is the number of positions whose ask is at most the bid. */
  lemma {:induction false} ValidBidCountIsCardinality(asks: seq<int>, bid: int)
    ensures ValidBidCount(asks, bid) == |set i | 0 <= i < |asks| && asks[i] <= bid|
    decreases |asks|
  {
    if asks != [] {
      var n := |asks| - 1;
      var init := asks[..n];
      ValidBidCountIsCardinality(init, bid);
      var before := set i | 0 <= i < |init| && init[i] <= bid;
      var after := set i | 0 <= i < |asks| && asks[i] <= bid;
      if asks[n] <= bid {
        assert after == before + {n};
        assert n !in before;
      } else {
        assert after == before;
      }
    }
  }

  /** Raising the bid never lowers the count. */
  lemma {:induction false} ValidBidCountMonotone(asks: seq<int>, low: int, high: int)
    requires low <= high
    ensures ValidBidCount(asks, low) <= ValidBidCount(asks, high)
    decreases |asks|
  {
    if asks != [] {
      ValidBidCountMonotone(asks[..|asks| - 1], low, high);
    }
  }

  /** When every ask is at most the bid, every node counts; an ask equal to
      the bid counts. */
  lemma {:induction false} AllAsksCovered(asks: seq<int>, bid: int)
    requires forall i :: 0 <= i < |asks| ==> asks[i] <= bid
    ensures ValidBidCount(asks, bid) == |asks|
    decreases |asks|
  {
    if asks != [] {
      AllAsksCovered(asks[..|asks| - 1], bid);
    }
  }

  /** The `forEach` that counts the valid bids. */
  method CountValidBids(nodes: seq<NeighbourNode>, toWei: string -> int, bid: int) returns (validBids: nat)
    ensures validBids == ValidBidCount(AsksInWei(nodes, toWei), bid)
    ensures validBids <= |nodes|
  {
    validBids := 0;
    for i := 0 to |nodes|
      invariant validBids == ValidBidCount(AsksInWei(nodes[..i], toWei), bid)
    {
      var ask := toWei(nodes[i].ask);
      if ask <= bid {
        validBids := validBids + 1;
      }
      assert AsksInWei(nodes[..i + 1], toWei)[..i] == AsksInWei(nodes[..i], toWei);
    }
    assert nodes[..|nodes|] == nodes;
  }

  // ---------------------------------------------------------------------
  // validateBidsForNeighbourhood and execute

  /** What `validateBidsForNeighbourhood` does and answers; `Err` is a throw. */
  datatype Validation = Validation(effects: seq<Effect>, verdict: Result<bool>)

  function Validate(chain: ChainView, nodes: seq<NeighbourNode>, toWei: string -> int,
                    minAckResponses: int, operationId: Value): Validation
  {
    var fetched := [Query(AgreementDataRead), Query(R0Read), Query(AssertionSizeRead)];
    match ServiceAgreementBid(chain)
    case Err(e) => Validation(fetched, Err(e))
    case Ok(bid) =>
      if ValidBidCount(AsksInWei(nodes, toWei), bid) < minAckResponses then
        Validation(fetched + [MarkOperationFailed(operationId, NotEnoughNodesMessage, PublishStartError)], Ok(false))
      else
        Validation(fetched, Ok(true))
  }

  method ValidateBidsForNeighbourhood(log: EffectLog, chain: ChainView, nodes: seq<NeighbourNode>,
                                      toWei: string -> int, minAckResponses: int, operationId: Value)
    returns (verdict: Result<bool>)
    modifies log
    ensures log.effects == old(log.effects) + Validate(chain, nodes, toWei, minAckResponses, operationId).effects
    ensures verdict == Validate(chain, nodes, toWei, minAckResponses, operationId).verdict
  {
    log.Append(Query(AgreementDataRead));
    log.Append(Query(R0Read));
    log.Append(Query(AssertionSizeRead));
    var divisor := chain.r0 * chain.agreement.epochsNumber * chain.assertionSize;
    if divisor == 0 {
      return Err(DivisionByZero);
    }
    var bid := TruncDiv((chain.agreement.tokenAmount + chain.agreement.updateTokenAmount) * 1024, divisor) + 1;
    var validBids := CountValidBids(nodes, toWei, bid);
    if validBids < minAckResponses {
      log.Append(MarkOperationFailed(operationId, NotEnoughNodesMessage, PublishStartError));
      return Ok(false);
    }
    return Ok(true);
  }

  /** How `execute` ends: delegating to the generic schedule-messages step
      (`super.execute`), or with a result of its own. */
  datatype ScheduleOutcome = Delegated | Finished(result: CommandResult)

  datatype ScheduleRun = ScheduleRun(effects: seq<Effect>, outcome: ScheduleOutcome)

  /** `execute`; `firstBatch` is `leftoverNodes === numberOfFoundNodes`. */
  function Outcome(firstBatch: bool, chain: ChainView, nodes: seq<NeighbourNode>, toWei: string -> int,
                   minAckResponses: int, operationId: Value): ScheduleRun
  {
    if !firstBatch then ScheduleRun([], Delegated)
    else
      var v := Validate(chain, nodes, toWei, minAckResponses, operationId);
      match v.verdict
      case Err(e) => ScheduleRun(v.effects, Finished(Fails(e)))
      case Ok(valid) => ScheduleRun(v.effects, if valid then Delegated else Finished(Empty))
  }

  method Execute(log: EffectLog, firstBatch: bool, chain: ChainView, nodes: seq<NeighbourNode>,
                 toWei: string -> int, minAckResponses: int, operationId: Value)
    returns (outcome: ScheduleOutcome)
    modifies log
    ensures log.effects == old(log.effects) + Outcome(firstBatch, chain, nodes, toWei, minAckResponses, operationId).effects
    ensures outcome == Outcome(firstBatch, chain, nodes, toWei, minAckResponses, operationId).outcome
  {
    var isValid := true;
    if firstBatch {
      var verdict := ValidateBidsForNeighbourhood(log, chain, nodes, toWei, minAckResponses, operationId);
      if verdict.Err? {
        return Finished(Fails(verdict.error));
      }
      isValid := verdict.value;
    }
    if isValid {
      return Delegated;
    }
    return Finished(Empty);
  }

  /** `default(map)`. */
  function Default(overrides: Data): (command: Data)
    ensures command == Defaults(Name, overrides)
  {
    Defaults(Name, overrides)
  }

  // ---------------------------------------------------------------------
  // Properties

  /** With a non-zero divisor, the validation answers false, marking the
      operation failed with `PUBLISH_START_ERROR`, iff fewer than
      `minAckResponses` asks are at most the bid; it marks nothing otherwise. */
  lemma RefusedIffTooFewValidBids(chain: ChainView, nodes: seq<NeighbourNode>, toWei: string -> int,
                                  minAckResponses: int, operationId: Value)
    requires Divisor(chain) != 0
    ensures var v := Validate(chain, nodes, toWei, minAckResponses, operationId);
      var bid := ServiceAgreementBid(chain).value;
      && v.verdict.Ok?
      && (!v.verdict.value <==> ValidBidCount(AsksInWei(nodes, toWei), bid) < minAckResponses)
      && (MarkOperationFailed(operationId, NotEnoughNodesMessage, PublishStartError) in v.effects <==> !v.verdict.value)
  {
  }

  /** A zero divisor throws before any node is counted or any status written. */
  lemma ZeroDivisorThrows(chain: ChainView, nodes: seq<NeighbourNode>, toWei: string -> int,
                          minAckResponses: int, operationId: Value)
    requires Divisor(chain) == 0
    ensures Validate(chain, nodes, toWei, minAckResponses, operationId)
            == Validation([Query(AgreementDataRead), Query(R0Read), Query(AssertionSizeRead)], Err(DivisionByZero))
  {
  }

  /** `execute` delegates exactly when validation was skipped or passed, and
      ends empty, without delegating, exactly when it was refused. */
  lemma DelegatesUnlessRefused(firstBatch: bool, chain: ChainView, nodes: seq<NeighbourNode>, toWei: string -> int,
                               minAckResponses: int, operationId: Value)
    ensures var run := Outcome(firstBatch, chain, nodes, toWei, minAckResponses, operationId);
      var verdict := Validate(chain, nodes, toWei, minAckResponses, operationId).verdict;
      && (run.outcome == Delegated <==> (!firstBatch || verdict == Ok(true)))
      && (run.outcome == Finished(Empty) <==> (firstBatch && verdict == Ok(false)))
      && (!firstBatch ==> run.effects == [])
  {
  }
}
