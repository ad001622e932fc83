/**
 The byte-credit ledger as a mutable object: every method computes exactly the result and
 the next state that the ledger functions prescribe, the occupancy loop included.
 */
module ByteCreditObjects {
  import opened Wrappers
  import opened ByteCredits

  const COMPONENTS: seq<Component> := [Single, Input, Output]

  /** The place of a component in the order in which claims are walked. */
  function Rank(k: Component): (j: nat)
    ensures j < |COMPONENTS| && COMPONENTS[j] == k
  {
    match k
    case Single => 0
    case Input => 1
    case Output => 2
  }

  function FirstParts(claim: Claim, j: nat, w: Weight): nat
    requires j <= 3
  {
    if j == 0 then 0 else FirstParts(claim, j - 1, w) + Part(claim, COMPONENTS[j - 1], w)
  }

  function LiveOwners(active: map<nat, Claim>, n: nat): set<nat> {
    set id, k | id in active && id < n && k in active[id] :: active[id][k].owner
  }

  lemma OwnersAreLive(l: Ledger)
    ensures forall owner: nat :: owner in LiveOwners(l.active, l.nextClaim) <==> Owns(l, owner)
  {
    forall owner: nat | Owns(l, owner) ensures owner in LiveOwners(l.active, l.nextClaim) {
      var id: nat, k :| Live(l, id, k) && l.active[id][k].owner == owner;
    }
    forall owner: nat | owner in LiveOwners(l.active, l.nextClaim) ensures Owns(l, owner) {
      var id, k :| id in l.active && id < l.nextClaim && k in l.active[id] && l.active[id][k].owner == owner;
      assert Live(l, id, k);
    }
  }

  /** Weight of the claims below `id` plus the first `j` components of claim `id`. */
  function Running(active: map<nat, Claim>, id: nat, j: nat, w: Weight): nat
    requires j <= 3
  {
    Total(active, id, w) + if id in active then FirstParts(active[id], j, w) else 0
  }

  lemma RunningEnd(active: map<nat, Claim>, id: nat, w: Weight)
    ensures Running(active, id, 0, w) == Total(active, id, w)
    ensures Running(active, id, 3, w) == Total(active, id + 1, w)
  {
    if id in active {
      var claim := active[id];
      assert FirstParts(claim, 1, w) == Part(claim, Single, w);
      assert FirstParts(claim, 2, w) == Part(claim, Single, w) + Part(claim, Input, w);
      assert FirstParts(claim, 3, w) == ClaimTotal(claim, w);
    }
  }

  lemma {:induction false} TotalGrows(active: map<nat, Claim>, m: nat, n: nat, w: Weight)
    requires m <= n
    ensures Total(active, m, w) <= Total(active, n, w)
  {
    if m < n { TotalGrows(active, m, n - 1, w); }
  }

  /** A running sum never exceeds the final one. */
  lemma RunningBelow(active: map<nat, Claim>, id: nat, j: nat, n: nat, w: Weight)
    requires j <= 3 && id < n
    ensures Running(active, id, j, w) <= Total(active, n, w)
  {
    RunningEnd(active, id, w);
    if id in active {
      PartsGrow(active[id], j, 3, w);
    }
    TotalGrows(active, id + 1, n, w);
  }

  lemma {:induction false} PartsGrow(claim: Claim, j: nat, k: nat, w: Weight)
    requires j <= k <= 3
    ensures FirstParts(claim, j, w) <= FirstParts(claim, k, w)
  {
    if j < k { PartsGrow(claim, j, k - 1, w); }
  }

  class ByteCreditLedger {
    const contract: Contract
    var inUse: nat
    var nextClaim: nat
    var active: map<nat, Claim>
    var consumed: map<Stage, nat>
    var position: Position

    ghost function Model(): Ledger
      reads this
    {
      Ledger(contract, inUse, nextClaim, active, consumed, position)
    }

    constructor (contract: Contract)
      requires ContractOk(contract)
      ensures Model() == FromContract(contract).value
    {
      this.contract := contract;
      inUse, nextClaim, active, consumed, position := 0, 1, map[], map[], Position(0, 0, 0);
    }

    method ComponentCount() returns (r: Result<nat, CreditError>)
      ensures r == if Sum(Model(), Items()) > U64_MAX then Err(ArithmeticOverflow) else Ok(Sum(Model(), Items()))
    {
      var total := 0;
      for id := 0 to nextClaim
        invariant total == Total(active, id, Items())
      {
        if id in active {
          ItemsOfClaim(active[id]);
          total := total + |active[id]|;
          if total > U64_MAX {
            TotalGrows(active, id + 1, nextClaim, Items());
            return Err(ArithmeticOverflow);
          }
        }
      }
      if total > U64_MAX {
        return Err(ArithmeticOverflow);
      }
      r := Ok(total);
    }

    /** Adds up owner and stage occupancy component by component, stopping at the first overflow. */
    method Measure(owner: nat, stage: Stage) returns (r: Result<Occupancy, CreditError>)
      ensures r == OccupancyFor(Model(), owner, stage)
    {
      var count := ComponentCount();
      if count.Err? {
        return Err(count.error);
      }
      var sums := Sums(0, 0, 0, 0);
      assert sums == RunningSums(active, 0, 0, owner, stage);
      hide Running;
      for id := 0 to nextClaim
        invariant sums == RunningSums(active, id, 0, owner, stage) && !Overflows(sums)
      {
        for j := 0 to 3
          invariant sums == RunningSums(active, id, j, owner, stage) && !Overflows(sums)
        {
          NextComponentSums(active, id, j, owner, stage);
          if id in active && COMPONENTS[j] in active[id] {
            sums := AddComponent(sums, active[id][COMPONENTS[j]], owner, stage);
            if Overflows(sums) {
              OverflowIsFinal(active, id, j + 1, nextClaim, owner, stage);
              FinalSums(Model(), owner, stage);
              return Err(ArithmeticOverflow);
            }
          }
        }
        NextClaimSums(active, id, owner, stage);
      }
      FinalSums(Model(), owner, stage);
      r := Ok(Occupancy(count.value, inUse, sums.ownerItems, sums.ownerBytes, sums.stageItems, sums.stageBytes));
    }

    /** All bounds for one component, checked in the order global, owner, stage. */
    method CheckComponent(owner: nat, stage: Stage, items: nat, bytes: nat, priorItems: nat, priorBytes: nat)
      returns (r: Result<(), CreditError>)
      ensures r == CheckAdmission(Model(), owner, stage, items, bytes, priorItems, priorBytes)
    {
      var occupancy := Measure(owner, stage);
      hide OccupancyFor;
      if occupancy.Err? {
        return Err(occupancy.error);
      }
      var o := occupancy.value;
      r := CheckTotals(Global, stage, items, bytes, o.globalItems + priorItems, o.globalBytes + priorBytes,
                       contract.maxClaimItems, contract.capacityBytes);
      if r.Err? {
        return;
      }
      r := CheckTotals(Owner, stage, items, bytes, o.ownerItems + priorItems, o.ownerBytes + priorBytes,
                       contract.maxOwnerClaimItems, contract.maxOwnerBytes);
      if r.Err? {
        return;
      }
      var policy := FindPolicy(contract.stagePolicies, stage);
      if policy.None? {
        return Err(InvalidConfiguration);
      }
      r := CheckTotals(StageScope, stage, items, bytes, o.stageItems, o.stageBytes,
                       policy.value.maxClaimItems, policy.value.maxBytes);
    }

    method CheckTotals(scope: Scope, stage: Stage, items: nat, bytes: nat, occupiedItems: nat, occupiedBytes: nat,
                       limitItems: nat, limitBytes: nat) returns (r: Result<(), CreditError>)
      ensures r == CheckBound(Model(), scope, stage, items, bytes, occupiedItems, occupiedBytes, limitItems, limitBytes)
    {
      if occupiedItems + items > U64_MAX || occupiedBytes + bytes > U64_MAX {
        return Err(ArithmeticOverflow);
      }
      if occupiedItems + items > limitItems || occupiedBytes + bytes > limitBytes {
        var policy := FindPolicy(contract.stagePolicies, stage);
        if policy.None? {
          return Err(InvalidConfiguration);
        }
        var pressure := Pressure(scope, stage, items, bytes, occupiedItems, occupiedBytes, limitItems, limitBytes);
        if policy.value.saturation.Backpressure? {
          return Err(Backpressured(pressure));
        }
        return Err(SpillRequired(pressure));
      }
      r := Ok(());
    }

    method Insert(claim: Claim, bytes: nat) returns (r: Result<nat, CreditError>)
      modifies this`active, this`inUse, this`nextClaim
      ensures (r, Model()) == InsertClaim(old(Model()), claim, bytes)
    {
      if inUse + bytes > U64_MAX {
        return Err(ArithmeticOverflow);
      }
      var id := nextClaim;
      if id >= U64_MAX {
        return Err(IdExhausted);
      }
      active := active[id := claim];
      inUse := inUse + bytes;
      nextClaim := id + 1;
      r := Ok(id);
    }

    method ClaimOne(owner: nat, stage: Stage, bytes: nat) returns (r: Result<nat, CreditError>)
      modifies this
      ensures (r, Model()) == ClaimSingle(old(Model()), owner, stage, bytes)
    {
      if bytes == 0 {
        return Err(ZeroClaim);
      }
      var check := CheckComponent(owner, stage, 1, bytes, 0, 0);
      hide CheckAdmission, InsertClaim;
      if check.Err? {
        return Err(check.error);
      }
      r := Insert(map[Single := ComponentClaim(owner, stage, bytes, 0)], bytes);
    }

    /** Nothing is inserted until both components and, in a shared stage, their sum have passed. */
    method ClaimBoth(owner: nat, reservation: Reservation) returns (r: Result<nat, CreditError>)
      modifies this
      ensures (r, Model()) == ClaimCoupled(old(Model()), owner, reservation)
    {
      hide CheckAdmission, InsertClaim, OccupancyFor;
      var total := TotalBytes(reservation);
      if total.Err? {
        return Err(total.error);
      }
      var check := CheckComponent(owner, reservation.inputStage, 1, reservation.inputBytes, 0, 0);
      if check.Err? {
        return Err(check.error);
      }
      check := CheckComponent(owner, reservation.outputStage, 1, reservation.outputBytes, 1, reservation.inputBytes);
      if check.Err? {
        return Err(check.error);
      }
      if reservation.inputStage == reservation.outputStage {
        var occupancy := Measure(owner, reservation.inputStage);
        if occupancy.Err? {
          return Err(occupancy.error);
        }
        var policy := FindPolicy(contract.stagePolicies, reservation.inputStage);
        if policy.None? {
          return Err(InvalidConfiguration);
        }
        var both := CheckInTurn(Snapshot(), StageScope, reservation.inputStage, 2, total.value,
                                occupancy.value.stageItems, occupancy.value.stageBytes,
                                policy.value.maxClaimItems, policy.value.maxBytes);
        if both.Err? {
          return Err(both.error);
        }
      }
      r := Insert(CoupledClaim(owner, reservation), total.value);
    }

    function Snapshot(): (l: Ledger)
      reads this
      ensures l == Model()
    {
      Ledger(contract, inUse, nextClaim, active, consumed, position)
    }

    method TransferComponent(id: nat, component: Component, to: nat) returns (r: Result<(), CreditError>)
      modifies this`active
      ensures (r, Model()) == Transfer(old(Model()), id, component, to)
    {
      if id !in active || component !in active[id] {
        return Err(MissingComponent(Snapshot(), id, component));
      }
      var existing := active[id][component];
      if existing.consumed != 0 {
        return Err(ConsumedComponentCannotTransfer(component, existing.consumed));
      }
      if existing.owner != to {
        var occupancy := Measure(to, existing.stage);
        hide OccupancyFor;
        if occupancy.Err? {
          return Err(occupancy.error);
        }
        var check := CheckInTurn(Snapshot(), Owner, existing.stage, 1, existing.bytes, occupancy.value.ownerItems,
                                 occupancy.value.ownerBytes, contract.maxOwnerClaimItems, contract.maxOwnerBytes);
        if check.Err? {
          return Err(check.error);
        }
        active := active[id := active[id][component := existing.(owner := to)]];
      }
      r := Ok(());
    }

    method ConsumeComponent(id: nat, component: Component, bytes: nat) returns (r: Result<(), CreditError>)
      modifies this`active, this`consumed
      ensures (r, Model()) == Consume(old(Model()), id, component, bytes)
    {
      if id !in active || component !in active[id] {
        return Err(MissingComponent(Snapshot(), id, component));
      }
      var target := active[id][component];
      if target.consumed > target.bytes {
        return Err(InvariantViolation);
      }
      var available := target.bytes - target.consumed;
      if bytes > available {
        return Err(UncreditedBytes(component, bytes, available));
      }
      var before := if target.stage in consumed then consumed[target.stage] else 0;
      if before + bytes > U64_MAX {
        return Err(ArithmeticOverflow);
      }
      active := active[id := active[id][component := target.(consumed := target.consumed + bytes)]];
      consumed := consumed[target.stage := before + bytes];
      r := Ok(());
    }

    method ReleaseClaim(id: nat) returns (r: Result<Claim, CreditError>)
      modifies this`active, this`inUse
      ensures (r, Model()) == Release(old(Model()), id)
    {
      if id !in active {
        return Err(MissingClaim(Snapshot(), id));
      }
      var claim := active[id];
      var bytes := 0;
      for j := 0 to 3
        invariant bytes == FirstParts(claim, j, Bytes())
      {
        if COMPONENTS[j] in claim {
          bytes := bytes + claim[COMPONENTS[j]].bytes;
        }
      }
      AllParts(claim, Bytes());
      if bytes > U64_MAX {
        return Err(ArithmeticOverflow);
      }
      if bytes > inUse {
        return Err(InvariantViolation);
      }
      active := active - {id};
      inUse := inUse - bytes;
      r := Ok(claim);
    }

    method AdvancePosition(next: Position) returns (r: Result<(), CreditError>)
      modifies this`position
      ensures (r, Model()) == Advance(old(Model()), next)
    {
      r := ValidateNextPosition(Snapshot(), next);
      if r.Ok? {
        position := next;
      }
    }

    /** Adds up the claimed bytes, looking at every component on the way. */
    method VerifyTotal() returns (r: Result<nat, CreditError>)
      ensures r.Ok? <==> NothingOverspent(Model()) && Sum(Model(), Bytes()) <= U64_MAX
      ensures r.Ok? ==> r.value == Sum(Model(), Bytes())
    {
      var total := 0;
      ghost var l := Model();
      for id := 0 to nextClaim
        invariant total == Total(active, id, Bytes()) && total <= U64_MAX
        invariant forall i: nat, k :: Live(l, i, k) && i < id ==> active[i][k].consumed <= active[i][k].bytes
      {
        RunningEnd(active, id, Bytes());
        for j := 0 to 3
          invariant total == Running(active, id, j, Bytes()) && total <= U64_MAX
          invariant forall k :: Live(l, id, k) && Rank(k) < j ==> active[id][k].consumed <= active[id][k].bytes
        {
          if id in active && COMPONENTS[j] in active[id] {
            var c := active[id][COMPONENTS[j]];
            if c.consumed > c.bytes {
              assert Live(l, id, COMPONENTS[j]);
              return Err(InvariantViolation);
            }
            total := total + c.bytes;
            if total > U64_MAX {
              RunningBelow(active, id, j + 1, nextClaim, Bytes());
              return Err(ArithmeticOverflow);
            }
          }
        }
      }
      r := Ok(total);
    }

    method VerifyStages() returns (r: Result<(), CreditError>)
      ensures r.Ok? <==> forall i :: 0 <= i < |contract.stages| ==> StageVerified(Model(), contract.stages[i])
    {
      hide OccupancyFor;
      for i := 0 to |contract.stages|
        invariant forall k :: 0 <= k < i ==> StageVerified(Model(), contract.stages[k])
      {
        var policy := FindPolicy(contract.stagePolicies, contract.stages[i]);
        if policy.None? {
          return Err(InvalidConfiguration);
        }
        var occupancy := Measure(U64_MAX, contract.stages[i]);
        if occupancy.Err? {
          return Err(occupancy.error);
        }
        if occupancy.value.stageItems > policy.value.maxClaimItems
            || occupancy.value.stageBytes > policy.value.maxBytes {
          return Err(InvariantViolation);
        }
      }
      r := Ok(());
    }

    method VerifyOwners() returns (r: Result<(), CreditError>)
      ensures r.Ok? <==> forall owner :: Owns(Model(), owner) ==> OwnerVerified(Model(), owner)
    {
      ghost var l := Model();
      var rest := LiveOwners(active, nextClaim);
      OwnersAreLive(l);
      hide OccupancyFor, LiveOwners, Owns;
      while rest != {}
        invariant forall owner :: owner in rest ==> Owns(l, owner)
        invariant forall owner :: Owns(l, owner) ==> owner in rest || OwnerVerified(l, owner)
        decreases rest
      {
        var owner :| owner in rest;
        rest := rest - {owner};
        var occupancy := Measure(owner, HttpReceive);
        if occupancy.Err? {
          return Err(occupancy.error);
        }
        if occupancy.value.ownerItems > contract.maxOwnerClaimItems
            || occupancy.value.ownerBytes > contract.maxOwnerBytes {
          return Err(InvariantViolation);
        }
      }
      r := Ok(());
    }

    /** The self-check recomputes every sum from the live components and accepts exactly when all bounds hold. */
    method Verify() returns (r: Result<(), CreditError>)
      ensures r.Ok? <==> VerifyPasses(Model())
    {
      hide NothingOverspent, Sum, StageVerified, OwnerVerified, Owns, ValidateNextPosition;
      var total := VerifyTotal();
      if total.Err? {
        return Err(total.error);
      }
      if total.value != inUse || inUse > contract.capacityBytes {
        return Err(InvariantViolation);
      }
      r := ValidateNextPosition(Snapshot(), position);
      if r.Err? {
        return;
      }
      r := VerifyStages();
      if r.Err? {
        return;
      }
      r := VerifyOwners();
    }
  }

  lemma AllParts(claim: Claim, w: Weight)
    ensures FirstParts(claim, 3, w) == ClaimTotal(claim, w)
  {
    assert FirstParts(claim, 1, w) == Part(claim, Single, w);
    assert FirstParts(claim, 2, w) == Part(claim, Single, w) + Part(claim, Input, w);
  }

  lemma FinalSums(l: Ledger, owner: nat, stage: Stage)
    ensures RunningSums(l.active, l.nextClaim, 0, owner, stage) ==
            Sums(Sum(l, OwnerItems(owner)), Sum(l, OwnerBytes(owner)), Sum(l, StageItems(stage)),
                 Sum(l, StageBytes(stage)))
  {
  }

  lemma ItemsOfClaim(claim: Claim)
    ensures ClaimTotal(claim, Items()) == |claim|
  {
    SizeByKey(claim.Keys);
  }

  lemma SizeByKey(keys: set<Component>)
    ensures |keys| == (if Single in keys then 1 else 0) + (if Input in keys then 1 else 0)
        + (if Output in keys then 1 else 0)
  {
    SizeWithout(keys, Single);
    SizeWithout(keys - {Single}, Input);
    SizeWithout(keys - {Single} - {Input}, Output);
    NoOtherKeys(keys - {Single} - {Input} - {Output});
  }

  lemma SizeWithout(keys: set<Component>, k: Component)
    ensures |keys| == |keys - {k}| + if k in keys then 1 else 0
  {
    if k in keys {
      assert keys == (keys - {k}) + {k};
    } else {
      assert keys == keys - {k};
    }
  }

  lemma NoOtherKeys(keys: set<Component>)
    requires Single !in keys && Input !in keys && Output !in keys
    ensures keys == {}
  {
    forall k: Component ensures k !in keys {
      assert k.Single? || k.Input? || k.Output?;
    }
  }

  /** The four running sums of the occupancy loop. */
  datatype Sums = Sums(ownerItems: nat, ownerBytes: nat, stageItems: nat, stageBytes: nat)

  function RunningSums(active: map<nat, Claim>, id: nat, j: nat, owner: nat, stage: Stage): Sums
    requires j <= 3
  {
    Sums(Running(active, id, j, OwnerItems(owner)), Running(active, id, j, OwnerBytes(owner)),
         Running(active, id, j, StageItems(stage)), Running(active, id, j, StageBytes(stage)))
  }

  function AddComponent(s: Sums, c: ComponentClaim, owner: nat, stage: Stage): Sums {
    Sums(s.ownerItems + (if c.owner == owner then 1 else 0), s.ownerBytes + (if c.owner == owner then c.bytes else 0),
         s.stageItems + (if c.stage == stage then 1 else 0), s.stageBytes + (if c.stage == stage then c.bytes else 0))
  }

  predicate Overflows(s: Sums) {
    s.ownerItems > U64_MAX || s.ownerBytes > U64_MAX || s.stageItems > U64_MAX || s.stageBytes > U64_MAX
  }

  lemma NextClaimSums(active: map<nat, Claim>, id: nat, owner: nat, stage: Stage)
    ensures RunningSums(active, id, 3, owner, stage) == RunningSums(active, id + 1, 0, owner, stage)
  {
    RunningEnd(active, id, OwnerItems(owner));
    RunningEnd(active, id, OwnerBytes(owner));
    RunningEnd(active, id, StageItems(stage));
    RunningEnd(active, id, StageBytes(stage));
  }

  lemma NextComponentSums(active: map<nat, Claim>, id: nat, j: nat, owner: nat, stage: Stage)
    requires j < 3
    ensures RunningSums(active, id, j + 1, owner, stage) ==
            if id in active && COMPONENTS[j] in active[id]
            then AddComponent(RunningSums(active, id, j, owner, stage), active[id][COMPONENTS[j]], owner, stage)
            else RunningSums(active, id, j, owner, stage)
  {
  }

  lemma OverflowIsFinal(active: map<nat, Claim>, id: nat, j: nat, n: nat, owner: nat, stage: Stage)
    requires j <= 3 && id < n && Overflows(RunningSums(active, id, j, owner, stage))
    ensures Overflows(RunningSums(active, n, 0, owner, stage))
  {
    RunningBelow(active, id, j, n, OwnerItems(owner));
    RunningBelow(active, id, j, n, OwnerBytes(owner));
    RunningBelow(active, id, j, n, StageItems(stage));
    RunningBelow(active, id, j, n, StageBytes(stage));
  }
}
