/**
 What the byte-credit ledger replies to a claim or a transfer: the demands it makes on the
 limits, in the order they are weighed, and the first one that goes over as the refusal.
 */
module ByteCreditRefusals {
  import opened Wrappers
  import opened ByteCredits

  // ---------------------------------------------------------------------------
  // Demands

  function StageNumber(stage: Stage): (n: nat)
    ensures forall j :: 0 <= j < |STAGES| ==> (STAGES[j] == stage <==> j == n)
  {
    match stage
    case HttpReceive => 0 case Decompression => 1 case DecryptOrPackInput => 2 case DecryptOrPackOutput => 3
    case Reorder => 4 case Writer => 5 case Journal => 6 case FfmpegPipe => 7 case SpillAndSink => 8
  }

  /** The limits a stage declares; a contract lists its policies in stage order. */
  function StageLimits(contract: Contract, stage: Stage): StagePolicy
    requires ContractOk(contract)
  {
    contract.stagePolicies[StageNumber(stage)]
  }

  predicate GoesOver(p: Pressure) {
    p.occupiedItems + p.requestedItems > p.limitItems || p.occupiedBytes + p.requestedBytes > p.limitBytes
  }

  function FirstOver(demands: seq<Pressure>): Option<Pressure> {
    if demands == [] then None
    else if GoesOver(demands[0]) then Some(demands[0])
    else FirstOver(demands[1..])
  }

  /** A demand that goes over is refused with the stage's kind of saturation, or as unrepresentable. */
  function Refusal(p: Pressure): CreditError {
    if p.occupiedItems + p.requestedItems > U64_MAX || p.occupiedBytes + p.requestedBytes > U64_MAX
    then ArithmeticOverflow
    else if p.stage.SpillAndSink? then SpillRequired(p)
    else Backpressured(p)
  }

  function OnAll(l: Ledger, stage: Stage, bytes: nat, priorItems: nat, priorBytes: nat): Pressure {
    Pressure(Global, stage, 1, bytes, Sum(l, Items()) + priorItems, Sum(l, Bytes()) + priorBytes,
             l.contract.maxClaimItems, l.contract.capacityBytes)
  }

  function OnOwner(l: Ledger, owner: nat, stage: Stage, bytes: nat, priorItems: nat, priorBytes: nat): Pressure {
    Pressure(Owner, stage, 1, bytes, Sum(l, OwnerItems(owner)) + priorItems, Sum(l, OwnerBytes(owner)) + priorBytes,
             l.contract.maxOwnerClaimItems, l.contract.maxOwnerBytes)
  }

  function OnStage(l: Ledger, stage: Stage, items: nat, bytes: nat): Pressure
    requires ContractOk(l.contract)
  {
    Pressure(StageScope, stage, items, bytes, Sum(l, StageItems(stage)), Sum(l, StageBytes(stage)),
             StageLimits(l.contract, stage).maxClaimItems, StageLimits(l.contract, stage).maxBytes)
  }

  /** What one component asks for, on top of what an earlier component of its claim asks for. */
  function Demands(l: Ledger, owner: nat, stage: Stage, bytes: nat, priorItems: nat, priorBytes: nat): seq<Pressure>
    requires ContractOk(l.contract)
  {
    [OnAll(l, stage, bytes, priorItems, priorBytes), OnOwner(l, owner, stage, bytes, priorItems, priorBytes),
     OnStage(l, stage, 1, bytes)]
  }

  /** The input's three demands, the output's three after it, and both at once on a shared stage. */
  function CoupledDemands(l: Ledger, owner: nat, r: Reservation): seq<Pressure>
    requires ContractOk(l.contract)
  {
    Demands(l, owner, r.inputStage, r.inputBytes, 0, 0)
    + Demands(l, owner, r.outputStage, r.outputBytes, 1, r.inputBytes)
    + if r.inputStage == r.outputStage then [OnStage(l, r.inputStage, 2, r.inputBytes + r.outputBytes)] else []
  }

  /** `reply` refuses with the first demand that goes over, and there is none only when `reply` accepts. */
  predicate Weighs<T(==)>(reply: Result<T, CreditError>, demands: seq<Pressure>, otherwise: Result<T, CreditError>) {
    reply == if FirstOver(demands).Some? then Err(Refusal(FirstOver(demands).value)) else otherwise
  }

  lemma {:induction false} FirstOverAppend(a: seq<Pressure>, b: seq<Pressure>)
    ensures FirstOver(a + b) == if FirstOver(a).Some? then FirstOver(a) else FirstOver(b)
  {
    if a == [] {
      assert a + b == b;
    } else {
      assert (a + b)[1..] == a[1..] + b;
      FirstOverAppend(a[1..], b);
    }
  }

  /** The refused demand really goes over, and nothing weighed before it does. */
  lemma {:induction false} FirstOverIsFirst(demands: seq<Pressure>)
    ensures FirstOver(demands).None? <==> forall i :: 0 <= i < |demands| ==> !GoesOver(demands[i])
    ensures FirstOver(demands).Some? ==>
              exists k :: 0 <= k < |demands| && demands[k] == FirstOver(demands).value && GoesOver(demands[k])
                  && forall i :: 0 <= i < k ==> !GoesOver(demands[i])
  {
    if demands != [] && !GoesOver(demands[0]) {
      var rest := demands[1..];
      FirstOverIsFirst(rest);
      assert forall i :: 0 < i < |demands| ==> demands[i] == rest[i - 1];
      if FirstOver(rest).Some? {
        var k :| 0 <= k < |rest| && rest[k] == FirstOver(rest).value && GoesOver(rest[k])
            && forall i :: 0 <= i < k ==> !GoesOver(rest[i]);
        assert demands[k + 1] == rest[k];
      } else {
        assert forall i :: 0 <= i < |rest| ==> rest[i] == demands[i + 1];
      }
    }
  }

  // ---------------------------------------------------------------------------
  // The checks weigh their demands

  lemma PolicyIsDeclared(contract: Contract, stage: Stage)
    requires ContractOk(contract)
    ensures FindPolicy(contract.stagePolicies, stage) == Some(StageLimits(contract, stage))
    ensures StageLimits(contract, stage).saturation == (if stage.SpillAndSink? then SpillRequirement else Backpressure)
    ensures StageLimits(contract, stage).maxClaimItems <= contract.maxClaimItems
    ensures StageLimits(contract, stage).maxBytes <= contract.capacityBytes
  {
    StageHasPolicy(contract, stage);
    SaturationFollowsStage(contract, stage);
    var found := FindPolicy(contract.stagePolicies, stage).value;
    var j :| 0 <= j < |contract.stagePolicies| && contract.stagePolicies[j] == found;
    assert PolicyOk(contract, contract.stagePolicies[j], STAGES[j]);
    hide FindPolicy, StageNumber, ContractOk, PolicyOk;
    assert STAGES[j] == stage;
  }

  lemma FirstOfThree(a: Pressure, b: Pressure, c: Pressure)
    ensures FirstOver([c]) == if GoesOver(c) then Some(c) else None
    ensures FirstOver([b]) == if GoesOver(b) then Some(b) else None
    ensures FirstOver([a]) == if GoesOver(a) then Some(a) else None
    ensures FirstOver([a, b, c]) ==
              if GoesOver(a) then Some(a) else if GoesOver(b) then Some(b) else if GoesOver(c) then Some(c) else None
  {
    hide GoesOver;
    assert [a, b, c] == [a] + ([b] + [c]);
    FirstOverAppend([a], [b] + [c]);
    FirstOverAppend([b], [c]);
  }

  lemma BoundWeighs(l: Ledger, p: Pressure)
    requires ContractOk(l.contract) && p.limitItems <= U64_MAX && p.limitBytes <= U64_MAX
    ensures Weighs(CheckBound(l, p.scope, p.stage, p.requestedItems, p.requestedBytes, p.occupiedItems,
                              p.occupiedBytes, p.limitItems, p.limitBytes), [p], Ok(()))
  {
    PolicyIsDeclared(l.contract, p.stage);
    FirstOfThree(p, p, p);
    hide FindPolicy, ContractOk, FirstOver;
  }

  /** Deciding the items first makes no difference while the bytes stay within `u64`. */
  lemma InTurnWeighs(l: Ledger, p: Pressure)
    requires ContractOk(l.contract) && p.limitItems <= U64_MAX && p.limitBytes <= U64_MAX
    requires p.occupiedBytes + p.requestedBytes <= U64_MAX
    ensures Weighs(CheckInTurn(l, p.scope, p.stage, p.requestedItems, p.requestedBytes, p.occupiedItems,
                               p.occupiedBytes, p.limitItems, p.limitBytes), [p], Ok(()))
  {
    PolicyIsDeclared(l.contract, p.stage);
    FirstOfThree(p, p, p);
    hide FindPolicy, ContractOk, FirstOver;
  }

  lemma LimitsFit(l: Ledger)
    requires Inv(l)
    ensures ContractOk(l.contract) && l.inUse == Sum(l, Bytes())
    ensures l.contract.maxOwnerClaimItems <= l.contract.maxClaimItems <= U64_MAX
    ensures l.contract.maxOwnerBytes <= l.contract.capacityBytes <= U64_MAX
    ensures 0 < l.nextClaim <= U64_MAX
    ensures forall id :: id in l.active ==> 0 < id < l.nextClaim
  {
  }

  lemma AdmissionWeighs(l: Ledger, owner: nat, stage: Stage, bytes: nat, priorItems: nat, priorBytes: nat)
    requires Inv(l)
    ensures Weighs(CheckAdmission(l, owner, stage, 1, bytes, priorItems, priorBytes),
                   Demands(l, owner, stage, bytes, priorItems, priorBytes), Ok(()))
  {
    OccupancyIsExact(l, owner, stage);
    LimitsFit(l);
    PolicyIsDeclared(l.contract, stage);
    var (a, b, c) := (OnAll(l, stage, bytes, priorItems, priorBytes),
                      OnOwner(l, owner, stage, bytes, priorItems, priorBytes), OnStage(l, stage, 1, bytes));
    hide Inv, Sum, FindPolicy, OccupancyFor, ContractOk, CheckBound, StageLimits;
    BoundWeighs(l, a);
    BoundWeighs(l, b);
    BoundWeighs(l, c);
    FirstOfThree(a, b, c);
    hide GoesOver, Refusal, FirstOver;
  }

  lemma SameStageWeighs(l: Ledger, owner: nat, r: Reservation)
    requires Inv(l) && r.inputStage == r.outputStage
    requires Sum(l, Bytes()) + r.inputBytes + r.outputBytes <= U64_MAX
    ensures Weighs(CheckSameStage(l, owner, r, r.inputBytes + r.outputBytes),
                   [OnStage(l, r.inputStage, 2, r.inputBytes + r.outputBytes)], Ok(()))
  {
    OccupancyIsExact(l, owner, r.inputStage);
    LimitsFit(l);
    PolicyIsDeclared(l.contract, r.inputStage);
    TotalMonotone(l.active, l.nextClaim, StageBytes(r.inputStage), Bytes());
    hide Inv, Total, FindPolicy, OccupancyFor, ContractOk, CheckInTurn, StageLimits, Weighs;
    InTurnWeighs(l, OnStage(l, r.inputStage, 2, r.inputBytes + r.outputBytes));
  }

  // ---------------------------------------------------------------------------
  // Replies

  /** Nothing left to refuse but the number: the claim is issued unless numbers have run out. */
  function Issued(l: Ledger): Result<nat, CreditError> {
    if l.nextClaim == U64_MAX then Err(IdExhausted) else Ok(l.nextClaim)
  }

  /** The reply to a single claim: its first demand that goes over, or the next number. */
  lemma SingleReply(l: Ledger, owner: nat, stage: Stage, bytes: nat)
    requires Inv(l)
    ensures bytes == 0 ==> ClaimSingle(l, owner, stage, bytes).0 == Err(ZeroClaim)
    ensures bytes > 0 ==>
              Weighs(ClaimSingle(l, owner, stage, bytes).0, Demands(l, owner, stage, bytes, 0, 0), Issued(l))
  {
    AdmissionWeighs(l, owner, stage, bytes, 0, 0);
    LimitsFit(l);
    var (a, b, c) := (OnAll(l, stage, bytes, 0, 0), OnOwner(l, owner, stage, bytes, 0, 0), OnStage(l, stage, 1, bytes));
    FirstOfThree(a, b, c);
    hide Inv, Sum, ContractOk, CheckAdmission, OnOwner, OnStage, FirstOver;
  }

  /**
   The reply to a coupled claim: the first of all its demands that goes over, the shared
   stage's last, or the next number. A total past `u64` is refused before anything is weighed.
   */
  lemma CoupledReply(l: Ledger, owner: nat, r: Reservation)
    requires Inv(l)
    ensures var reply := ClaimCoupled(l, owner, r).0;
            if r.inputBytes == 0 || r.outputBytes == 0 then reply == Err(ZeroClaim)
            else if r.inputBytes + r.outputBytes > U64_MAX then reply == Err(ArithmeticOverflow)
            else Weighs(reply, CoupledDemands(l, owner, r), Issued(l))
  {
    var input := Demands(l, owner, r.inputStage, r.inputBytes, 0, 0);
    var output := Demands(l, owner, r.outputStage, r.outputBytes, 1, r.inputBytes);
    var both := CoupledDemands(l, owner, r)[6..];
    assert CoupledDemands(l, owner, r) == input + output + both;
    FirstOverAppend(input + output, both);
    FirstOverAppend(input, output);
    AdmissionWeighs(l, owner, r.inputStage, r.inputBytes, 0, 0);
    AdmissionWeighs(l, owner, r.outputStage, r.outputBytes, 1, r.inputBytes);
    LimitsFit(l);
    FirstOverIsFirst(output);
    assert output[0] == OnAll(l, r.outputStage, r.outputBytes, 1, r.inputBytes);
    assert FirstOver(output).None? ==> Sum(l, Bytes()) + r.inputBytes + r.outputBytes <= U64_MAX;
    hide Inv, Sum, ContractOk, CheckAdmission, CheckSameStage, Demands, OnStage, GoesOver, Refusal,
        FirstOver, StageLimits, Issued;
    if r.inputStage == r.outputStage && FirstOver(output).None? {
      assert both == [OnStage(l, r.inputStage, 2, r.inputBytes + r.outputBytes)];
      SameStageWeighs(l, owner, r);
    }
    if r.inputStage != r.outputStage { assert both == []; }
  }

  /** A live component and another owner's fit together: they are already counted. */
  lemma LiveDemandFits(l: Ledger, id: nat, k: Component, to: nat)
    requires Inv(l) && Has(l, id, k) && l.active[id][k].owner != to
    ensures Sum(l, OwnerItems(to)) + 1 <= Sum(l, Items()) <= U64_MAX
    ensures Sum(l, OwnerBytes(to)) + l.active[id][k].bytes <= Sum(l, Bytes()) <= U64_MAX
  {
    var c := l.active[id][k];
    var l' := With(l, id, k, c.(owner := to));
    LimitsFit(l);
    WithSum(l, id, k, c.(owner := to), OwnerBytes(to));
    WithSum(l, id, k, c.(owner := to), Bytes());
    TotalMonotone(l'.active, l'.nextClaim, OwnerBytes(to), Bytes());
    WithSum(l, id, k, c.(owner := to), OwnerItems(to));
    WithSum(l, id, k, c.(owner := to), Items());
    TotalMonotone(l'.active, l'.nextClaim, OwnerItems(to), Items());
    hide Inv, Total;
  }

  /**
   The reply to a transfer: what is missing or spent, then the new owner's limit. A transfer
   never leaves the arithmetic range, since the bytes it moves are already counted.
   */
  lemma TransferReply(l: Ledger, id: nat, k: Component, to: nat)
    requires Inv(l)
    ensures var reply := Transfer(l, id, k, to).0;
            if id in l.active then
              if k !in l.active[id] then reply == Err(UnknownComponent(id, k))
              else
                var c := l.active[id][k];
                if c.consumed > 0 then reply == Err(ConsumedComponentCannotTransfer(k, c.consumed))
                else if c.owner == to then reply == Ok(())
                else Weighs(reply, [OnOwner(l, to, c.stage, c.bytes, 0, 0)], Ok(()))
            else if 0 < id < l.nextClaim then reply == Err(ClaimAlreadyReleased(id))
            else reply == Err(UnknownClaim(id))
    ensures Transfer(l, id, k, to).0 != Err(ArithmeticOverflow)
  {
    LimitsFit(l);
    if Has(l, id, k) && l.active[id][k].consumed == 0 && l.active[id][k].owner != to {
      var c := l.active[id][k];
      LiveDemandFits(l, id, k, to);
      OccupancyIsExact(l, to, c.stage);
      InUseIsSum(l);
      hide Inv, Sum, FindPolicy, OccupancyFor, ContractOk, CheckInTurn;
      InTurnWeighs(l, OnOwner(l, to, c.stage, c.bytes, 0, 0));
    }
  }
}
