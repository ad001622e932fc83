/**
 The byte-credit ledger: claims bounded globally, per owner and per stage at once, and
 durability positions gated on lifetime consumption.
 */
module ByteCredits {
  import opened Wrappers

  datatype Stage =
    | HttpReceive | Decompression | DecryptOrPackInput | DecryptOrPackOutput | Reorder
    | Writer | Journal | FfmpegPipe | SpillAndSink

  const STAGES: seq<Stage> := [
    HttpReceive, Decompression, DecryptOrPackInput, DecryptOrPackOutput, Reorder, Writer, Journal, FfmpegPipe,
    SpillAndSink]

  datatype Saturation = Backpressure | SpillRequirement

  datatype StagePolicy = StagePolicy(stage: Stage, maxClaimItems: nat, maxBytes: nat, saturation: Saturation)

  const BYTE_CREDIT_SCHEMA_ID := "ff.byte-credit@1"
  const BYTE_CREDIT_CONTRACT_VERSION := SchemaVersion(1, 0)

  datatype Contract = Contract(
    schemaId: string,
    version: SchemaVersion,
    capacityBytes: nat,
    maxClaimItems: nat,
    maxOwnerBytes: nat,
    maxOwnerClaimItems: nat,
    stages: seq<Stage>,
    stagePolicies: seq<StagePolicy>)

  datatype Component = Single | Input | Output

  datatype ComponentClaim = ComponentClaim(owner: nat, stage: Stage, bytes: nat, consumed: nat)

  type Claim = map<Component, ComponentClaim>

  datatype Position = Position(received: nat, written: nat, durable: nat)

  datatype Reservation = Reservation(inputStage: Stage, inputBytes: nat, outputStage: Stage, outputBytes: nat)

  datatype Scope = Global | Owner | StageScope

  datatype Pressure = Pressure(
    scope: Scope, stage: Stage, requestedItems: nat, requestedBytes: nat,
    occupiedItems: nat, occupiedBytes: nat, limitItems: nat, limitBytes: nat)

  datatype CreditError =
    | InvalidConfiguration
    | ZeroClaim
    | Backpressured(pressure: Pressure)
    | SpillRequired(pressure: Pressure)
    | ArithmeticOverflow
    | IdExhausted
    | UnknownClaim(id: nat)
    | ClaimAlreadyReleased(id: nat)
    | UnknownComponent(id: nat, component: Component)
    | ConsumedComponentCannotTransfer(component: Component, consumed: nat)
    | UncreditedBytes(component: Component, requested: nat, available: nat)
    | PositionRegressed
    | ReceivedAheadOfConsumed
    | WrittenAheadOfConsumed
    | WrittenAheadOfReceived
    | DurableAheadOfWritten
    | AcknowledgementBrokerMismatch
    | InvariantViolation

  datatype Ledger = Ledger(
    contract: Contract,
    inUse: nat,
    nextClaim: nat,
    active: map<nat, Claim>,
    consumed: map<Stage, nat>,
    position: Position)

  // ---------------------------------------------------------------------------
  // Contract

  predicate PolicyOk(contract: Contract, policy: StagePolicy, stage: Stage) {
    && policy.stage == stage
    && policy.saturation == (if stage.SpillAndSink? then SpillRequirement else Backpressure)
    && 0 < policy.maxClaimItems <= contract.maxClaimItems
    && 0 < policy.maxBytes <= contract.capacityBytes
  }

  predicate ContractOk(contract: Contract) {
    && contract.schemaId == BYTE_CREDIT_SCHEMA_ID
    && contract.version == BYTE_CREDIT_CONTRACT_VERSION
    && contract.maxClaimItems > 0
    && contract.capacityBytes > 0
    && 0 < contract.maxOwnerClaimItems <= contract.maxClaimItems
    && 0 < contract.maxOwnerBytes <= contract.capacityBytes
    && contract.stages == STAGES
    && |contract.stagePolicies| == |STAGES|
    && forall i :: 0 <= i < |STAGES| ==> PolicyOk(contract, contract.stagePolicies[i], STAGES[i])
  }

  function FromContract(contract: Contract): Result<Ledger, CreditError> {
    if ContractOk(contract) then Ok(Ledger(contract, 0, 1, map[], map[], Position(0, 0, 0)))
    else Err(InvalidConfiguration)
  }

  function FindPolicy(policies: seq<StagePolicy>, stage: Stage): (r: Option<StagePolicy>)
    ensures r.Some? ==> r.value in policies && r.value.stage == stage
    ensures r.None? ==> forall i :: 0 <= i < |policies| ==> policies[i].stage != stage
  {
    if policies == [] then None
    else if policies[0].stage == stage then Some(policies[0])
    else FindPolicy(policies[1..], stage)
  }

  // ---------------------------------------------------------------------------
  // Occupancy

  type Weight = ComponentClaim -> nat

  function Part(claim: Claim, component: Component, w: Weight): nat {
    if component in claim then w(claim[component]) else 0
  }

  function ClaimTotal(claim: Claim, w: Weight): nat {
    Part(claim, Single, w) + Part(claim, Input, w) + Part(claim, Output, w)
  }

  /** Weight of all live components of claims numbered below `n`. */
  function Total(active: map<nat, Claim>, n: nat, w: Weight): nat {
    if n == 0 then 0
    else Total(active, n - 1, w) + if n - 1 in active then ClaimTotal(active[n - 1], w) else 0
  }

  function Items(): Weight { (c: ComponentClaim) => 1 }

  function Bytes(): Weight { (c: ComponentClaim) => c.bytes }

  function OwnerItems(owner: nat): Weight { (c: ComponentClaim) => if c.owner == owner then 1 else 0 }

  function OwnerBytes(owner: nat): Weight { (c: ComponentClaim) => if c.owner == owner then c.bytes else 0 }

  function StageItems(stage: Stage): Weight { (c: ComponentClaim) => if c.stage == stage then 1 else 0 }

  function StageBytes(stage: Stage): Weight { (c: ComponentClaim) => if c.stage == stage then c.bytes else 0 }

  function Sum(l: Ledger, w: Weight): nat {
    Total(l.active, l.nextClaim, w)
  }

  datatype Occupancy = Occupancy(
    globalItems: nat, globalBytes: nat, ownerItems: nat, ownerBytes: nat, stageItems: nat, stageBytes: nat)

  /** Exact occupancy, or an overflow as soon as one of the running sums leaves `u64`. */
  function OccupancyFor(l: Ledger, owner: nat, stage: Stage): Result<Occupancy, CreditError> {
    var o := Occupancy(Sum(l, Items()), l.inUse, Sum(l, OwnerItems(owner)), Sum(l, OwnerBytes(owner)),
                       Sum(l, StageItems(stage)), Sum(l, StageBytes(stage)));
    if o.globalItems > U64_MAX || o.ownerItems > U64_MAX || o.ownerBytes > U64_MAX
       || o.stageItems > U64_MAX || o.stageBytes > U64_MAX then Err(ArithmeticOverflow)
    else Ok(o)
  }

  function PressureError(l: Ledger, stage: Stage, pressure: Pressure): CreditError {
    match FindPolicy(l.contract.stagePolicies, stage)
    case None => InvalidConfiguration
    case Some(policy) => if policy.saturation.Backpressure? then Backpressured(pressure) else SpillRequired(pressure)
  }

  /** One bound: occupied plus already requested plus requested must stay within the limits. */
  function CheckBound(l: Ledger, scope: Scope, stage: Stage, items: nat, bytes: nat, occupiedItems: nat,
                      occupiedBytes: nat, limitItems: nat, limitBytes: nat): Result<(), CreditError> {
    if occupiedItems + items > U64_MAX || occupiedBytes + bytes > U64_MAX then Err(ArithmeticOverflow)
    else if occupiedItems + items > limitItems || occupiedBytes + bytes > limitBytes then
      Err(PressureError(l, stage, Pressure(scope, stage, items, bytes, occupiedItems, occupiedBytes, limitItems,
                                           limitBytes)))
    else Ok(())
  }

  /** The same with the items decided before the bytes are even added up. */
  function CheckInTurn(l: Ledger, scope: Scope, stage: Stage, items: nat, bytes: nat, occupiedItems: nat,
                       occupiedBytes: nat, limitItems: nat, limitBytes: nat): Result<(), CreditError> {
    var error :=
      PressureError(l, stage, Pressure(scope, stage, items, bytes, occupiedItems, occupiedBytes, limitItems,
                                       limitBytes));
    if occupiedItems + items > U64_MAX then Err(ArithmeticOverflow)
    else if occupiedItems + items > limitItems then Err(error)
    else if occupiedBytes + bytes > U64_MAX then Err(ArithmeticOverflow)
    else if occupiedBytes + bytes > limitBytes then Err(error)
    else Ok(())
  }

  /** All three bounds for one component, given what an earlier component of the same claim asks for. */
  function CheckAdmission(l: Ledger, owner: nat, stage: Stage, items: nat, bytes: nat, priorItems: nat, priorBytes: nat)
    : Result<(), CreditError>
  {
    match OccupancyFor(l, owner, stage)
    case Err(error) => Err(error)
    case Ok(o) =>
      var global := CheckBound(l, Global, stage, items, bytes, o.globalItems + priorItems, o.globalBytes + priorBytes,
                               l.contract.maxClaimItems, l.contract.capacityBytes);
      if global.Err? then global else
      var forOwner := CheckBound(l, Owner, stage, items, bytes, o.ownerItems + priorItems, o.ownerBytes + priorBytes,
                                 l.contract.maxOwnerClaimItems, l.contract.maxOwnerBytes);
      if forOwner.Err? then forOwner else
      match FindPolicy(l.contract.stagePolicies, stage)
      case None => Err(InvalidConfiguration)
      case Some(policy) =>
        CheckBound(l, StageScope, stage, items, bytes, o.stageItems, o.stageBytes, policy.maxClaimItems,
                   policy.maxBytes)
  }

  // ---------------------------------------------------------------------------
  // Operations

  function InsertClaim(l: Ledger, claim: Claim, bytes: nat): (Result<nat, CreditError>, Ledger) {
    if l.inUse + bytes > U64_MAX then (Err(ArithmeticOverflow), l)
    else if l.nextClaim >= U64_MAX then (Err(IdExhausted), l)
    else
      (Ok(l.nextClaim),
       l.(active := l.active[l.nextClaim := claim], inUse := l.inUse + bytes, nextClaim := l.nextClaim + 1))
  }

  function ClaimSingle(l: Ledger, owner: nat, stage: Stage, bytes: nat): (Result<nat, CreditError>, Ledger) {
    if bytes == 0 then (Err(ZeroClaim), l)
    else
      var check := CheckAdmission(l, owner, stage, 1, bytes, 0, 0);
      if check.Err? then (Err(check.error), l)
      else InsertClaim(l, map[Single := ComponentClaim(owner, stage, bytes, 0)], bytes)
  }

  function TotalBytes(r: Reservation): Result<nat, CreditError> {
    if r.inputBytes == 0 || r.outputBytes == 0 then Err(ZeroClaim)
    else if r.inputBytes + r.outputBytes > U64_MAX then Err(ArithmeticOverflow)
    else Ok(r.inputBytes + r.outputBytes)
  }

  /** Both components of a reservation in one stage are checked together as well. */
  function CheckSameStage(l: Ledger, owner: nat, r: Reservation, total: nat): Result<(), CreditError> {
    if r.inputStage != r.outputStage then Ok(())
    else
      match OccupancyFor(l, owner, r.inputStage)
      case Err(error) => Err(error)
      case Ok(o) =>
        match FindPolicy(l.contract.stagePolicies, r.inputStage)
        case None => Err(InvalidConfiguration)
        case Some(policy) =>
          CheckInTurn(l, StageScope, r.inputStage, 2, total, o.stageItems, o.stageBytes, policy.maxClaimItems,
                      policy.maxBytes)
  }

  function CoupledClaim(owner: nat, r: Reservation): Claim {
    map[Input := ComponentClaim(owner, r.inputStage, r.inputBytes, 0),
        Output := ComponentClaim(owner, r.outputStage, r.outputBytes, 0)]
  }

  function ClaimCoupled(l: Ledger, owner: nat, r: Reservation): (Result<nat, CreditError>, Ledger) {
    var total := TotalBytes(r);
    if total.Err? then (Err(total.error), l) else
    var input := CheckAdmission(l, owner, r.inputStage, 1, r.inputBytes, 0, 0);
    if input.Err? then (Err(input.error), l) else
    var output := CheckAdmission(l, owner, r.outputStage, 1, r.outputBytes, 1, r.inputBytes);
    if output.Err? then (Err(output.error), l) else
    var same := CheckSameStage(l, owner, r, total.value);
    if same.Err? then (Err(same.error), l)
    else InsertClaim(l, CoupledClaim(owner, r), total.value)
  }

  function MissingClaim(l: Ledger, id: nat): CreditError {
    if 0 < id < l.nextClaim then ClaimAlreadyReleased(id) else UnknownClaim(id)
  }

  function MissingComponent(l: Ledger, id: nat, component: Component): CreditError {
    if id in l.active then UnknownComponent(id, component) else MissingClaim(l, id)
  }

  predicate Has(l: Ledger, id: nat, component: Component) {
    id in l.active && component in l.active[id]
  }

  function With(l: Ledger, id: nat, component: Component, c: ComponentClaim): Ledger
    requires Has(l, id, component)
  {
    l.(active := l.active[id := l.active[id][component := c]])
  }

  function CheckOwnerTransfer(l: Ledger, to: nat, c: ComponentClaim): Result<(), CreditError> {
    match OccupancyFor(l, to, c.stage)
    case Err(error) => Err(error)
    case Ok(o) =>
      CheckInTurn(l, Owner, c.stage, 1, c.bytes, o.ownerItems, o.ownerBytes, l.contract.maxOwnerClaimItems,
                  l.contract.maxOwnerBytes)
  }

  function Transfer(l: Ledger, id: nat, component: Component, to: nat): (Result<(), CreditError>, Ledger) {
    if !Has(l, id, component) then (Err(MissingComponent(l, id, component)), l)
    else
      var c := l.active[id][component];
      if c.consumed != 0 then (Err(ConsumedComponentCannotTransfer(component, c.consumed)), l)
      else if c.owner == to then (Ok(()), l)
      else
        var check := CheckOwnerTransfer(l, to, c);
        if check.Err? then (Err(check.error), l) else (Ok(()), With(l, id, component, c.(owner := to)))
  }

  function ConsumedFor(l: Ledger, stage: Stage): nat {
    if stage in l.consumed then l.consumed[stage] else 0
  }

  function Consume(l: Ledger, id: nat, component: Component, bytes: nat): (Result<(), CreditError>, Ledger) {
    if !Has(l, id, component) then (Err(MissingComponent(l, id, component)), l)
    else
      var c := l.active[id][component];
      if c.consumed > c.bytes then (Err(InvariantViolation), l)
      else if bytes > c.bytes - c.consumed then (Err(UncreditedBytes(component, bytes, c.bytes - c.consumed)), l)
      else if ConsumedFor(l, c.stage) + bytes > U64_MAX then (Err(ArithmeticOverflow), l)
      else
        (Ok(()),
         With(l, id, component, c.(consumed := c.consumed + bytes))
         .(consumed := l.consumed[c.stage := ConsumedFor(l, c.stage) + bytes]))
  }

  function Release(l: Ledger, id: nat): (Result<Claim, CreditError>, Ledger) {
    if id !in l.active then (Err(MissingClaim(l, id)), l)
    else
      var bytes := ClaimTotal(l.active[id], Bytes());
      if bytes > U64_MAX then (Err(ArithmeticOverflow), l)
      else if bytes > l.inUse then (Err(InvariantViolation), l)
      else (Ok(l.active[id]), l.(active := l.active - {id}, inUse := l.inUse - bytes))
  }

  function ValidateNextPosition(l: Ledger, next: Position): Result<(), CreditError> {
    if next.received < l.position.received || next.written < l.position.written
        || next.durable < l.position.durable then
      Err(PositionRegressed)
    else if next.received > ConsumedFor(l, HttpReceive) then Err(ReceivedAheadOfConsumed)
    else if next.written > ConsumedFor(l, Writer) then Err(WrittenAheadOfConsumed)
    else if next.written > next.received then Err(WrittenAheadOfReceived)
    else if next.durable > next.written then Err(DurableAheadOfWritten)
    else Ok(())
  }

  function Advance(l: Ledger, next: Position): (Result<(), CreditError>, Ledger) {
    var valid := ValidateNextPosition(l, next);
    (valid, if valid.Ok? then l.(position := next) else l)
  }

  // ---------------------------------------------------------------------------
  // Invariant

  ghost predicate ClaimsOk(l: Ledger) {
    && (forall id :: id in l.active ==> 0 < id < l.nextClaim)
    && (forall id, k :: id in l.active && k in l.active[id] ==> l.active[id][k].consumed <= l.active[id][k].bytes)
  }

  ghost predicate Within(l: Ledger, items: Weight, bytes: Weight, limitItems: nat, limitBytes: nat) {
    Sum(l, items) <= limitItems && Sum(l, bytes) <= limitBytes
  }

  ghost predicate GlobalOk(l: Ledger) {
    l.inUse == Sum(l, Bytes()) && Within(l, Items(), Bytes(), l.contract.maxClaimItems, l.contract.capacityBytes)
  }

  ghost predicate OwnersOk(l: Ledger) {
    forall o :: Within(l, OwnerItems(o), OwnerBytes(o), l.contract.maxOwnerClaimItems, l.contract.maxOwnerBytes)
  }

  ghost predicate StageOk(l: Ledger, s: Stage) {
    var policy := FindPolicy(l.contract.stagePolicies, s);
    policy.Some? && Within(l, StageItems(s), StageBytes(s), policy.value.maxClaimItems, policy.value.maxBytes)
  }

  ghost predicate StagesOk(l: Ledger) {
    forall s :: StageOk(l, s)
  }

  ghost predicate PositionOk(l: Ledger) {
    && l.position.durable <= l.position.written <= l.position.received
    && l.position.received <= ConsumedFor(l, HttpReceive)
    && l.position.written <= ConsumedFor(l, Writer)
  }

  ghost predicate LimitsOk(l: Ledger) {
    && ContractOk(l.contract)
    && l.contract.capacityBytes <= U64_MAX && l.contract.maxClaimItems <= U64_MAX
    && 0 < l.nextClaim <= U64_MAX
    && forall s :: ConsumedFor(l, s) <= U64_MAX
  }

  ghost predicate Inv(l: Ledger) {
    LimitsOk(l) && ClaimsOk(l) && GlobalOk(l) && OwnersOk(l) && StagesOk(l) && PositionOk(l)
  }

  // ---------------------------------------------------------------------------
  // Sums

  lemma {:induction false} TotalFrame(a: map<nat, Claim>, b: map<nat, Claim>, n: nat, w: Weight)
    requires forall id :: id < n ==> (id in a <==> id in b) && (id in a ==> a[id] == b[id])
    ensures Total(a, n, w) == Total(b, n, w)
  {
    if n > 0 { TotalFrame(a, b, n - 1, w); }
  }

  lemma {:induction false} TotalReplace(active: map<nat, Claim>, id: nat, claim: Claim, n: nat, w: Weight)
    requires id in active && id < n
    ensures Total(active[id := claim], n, w) + ClaimTotal(active[id], w) == Total(active, n, w) + ClaimTotal(claim, w)
  {
    if id == n - 1 {
      TotalFrame(active, active[id := claim], id, w);
    } else {
      TotalReplace(active, id, claim, n - 1, w);
    }
  }

  lemma {:induction false} TotalRemove(active: map<nat, Claim>, id: nat, n: nat, w: Weight)
    requires id in active && id < n
    ensures Total(active - {id}, n, w) + ClaimTotal(active[id], w) == Total(active, n, w)
  {
    if id == n - 1 {
      TotalFrame(active, active - {id}, id, w);
    } else {
      TotalRemove(active, id, n - 1, w);
    }
  }

  lemma TotalInsert(l: Ledger, claim: Claim, w: Weight)
    ensures Total(l.active[l.nextClaim := claim], l.nextClaim + 1, w) == Sum(l, w) + ClaimTotal(claim, w)
  {
    TotalFrame(l.active, l.active[l.nextClaim := claim], l.nextClaim, w);
  }

  lemma {:induction false} TotalNothing(n: nat, w: Weight)
    ensures Total(map[], n, w) == 0
  {
    if n > 0 { TotalNothing(n - 1, w); }
  }

  lemma {:induction false} TotalMonotone(active: map<nat, Claim>, n: nat, v: Weight, w: Weight)
    requires forall c :: v(c) <= w(c)
    ensures Total(active, n, v) <= Total(active, n, w)
  {
    if n > 0 { TotalMonotone(active, n - 1, v, w); }
  }

  lemma StageHasPolicy(contract: Contract, s: Stage)
    requires ContractOk(contract)
    ensures var policy := FindPolicy(contract.stagePolicies, s);
            policy.Some? && policy.value.maxClaimItems <= contract.maxClaimItems
                && policy.value.maxBytes <= contract.capacityBytes
  {
    var i := match s
      case HttpReceive => 0 case Decompression => 1 case DecryptOrPackInput => 2 case DecryptOrPackOutput => 3
      case Reorder => 4 case Writer => 5 case Journal => 6 case FfmpegPipe => 7 case SpillAndSink => 8;
    assert STAGES[i] == s;
    assert PolicyOk(contract, contract.stagePolicies[i], STAGES[i]);
    var policy := FindPolicy(contract.stagePolicies, s);
    var j :| 0 <= j < |contract.stagePolicies| && contract.stagePolicies[j] == policy.value;
    assert PolicyOk(contract, contract.stagePolicies[j], STAGES[j]);
  }

  /** Within the bounds no occupancy sum can overflow. */
  lemma OccupancyIsExact(l: Ledger, owner: nat, stage: Stage)
    requires Inv(l)
    ensures OccupancyFor(l, owner, stage).Ok?
    ensures OccupancyFor(l, owner, stage).value ==
            Occupancy(Sum(l, Items()), Sum(l, Bytes()), Sum(l, OwnerItems(owner)), Sum(l, OwnerBytes(owner)),
                      Sum(l, StageItems(stage)), Sum(l, StageBytes(stage)))
  {
    StageHasPolicy(l.contract, stage);
    assert StageOk(l, stage);
    assert Within(l, OwnerItems(owner), OwnerBytes(owner), l.contract.maxOwnerClaimItems, l.contract.maxOwnerBytes);
    hide Sum, FindPolicy;
  }

  // ---------------------------------------------------------------------------
  // What admission means

  /** A component fits when every sum it adds to stays within its limit. */
  ghost predicate Fits(l: Ledger, owner: nat, stage: Stage, bytes: nat, priorItems: nat, priorBytes: nat) {
    var policy := FindPolicy(l.contract.stagePolicies, stage);
    && Sum(l, Items()) + priorItems + 1 <= l.contract.maxClaimItems
    && Sum(l, Bytes()) + priorBytes + bytes <= l.contract.capacityBytes
    && Sum(l, OwnerItems(owner)) + priorItems + 1 <= l.contract.maxOwnerClaimItems
    && Sum(l, OwnerBytes(owner)) + priorBytes + bytes <= l.contract.maxOwnerBytes
    && policy.Some?
    && Sum(l, StageItems(stage)) + 1 <= policy.value.maxClaimItems
    && Sum(l, StageBytes(stage)) + bytes <= policy.value.maxBytes
  }

  lemma AdmissionMeansFits(l: Ledger, owner: nat, stage: Stage, bytes: nat, priorItems: nat, priorBytes: nat)
    requires Inv(l)
    ensures CheckAdmission(l, owner, stage, 1, bytes, priorItems, priorBytes).Ok? <==>
              Fits(l, owner, stage, bytes, priorItems, priorBytes)
  {
    OccupancyIsExact(l, owner, stage);
    StageHasPolicy(l.contract, stage);
    hide Sum, FindPolicy, OccupancyFor, ClaimsOk, OwnersOk, StagesOk, PositionOk;
  }

  /** A refusal that names a limit, the demand on it, and the kind of saturation the stage declares. */
  ghost predicate IsPressure(l: Ledger, owner: nat, stage: Stage, bytes: nat, error: CreditError) {
    && (if stage.SpillAndSink? then error.SpillRequired? else error.Backpressured?)
    && var p := error.pressure;
    && p.stage == stage && p.requestedItems == 1 && p.requestedBytes == bytes
    && (p.occupiedItems + 1 > p.limitItems || p.occupiedBytes + bytes > p.limitBytes)
    && match p.scope
       case Global =>
         && p.occupiedItems == Sum(l, Items()) && p.occupiedBytes == Sum(l, Bytes())
         && p.limitItems == l.contract.maxClaimItems && p.limitBytes == l.contract.capacityBytes
       case Owner =>
         && p.occupiedItems == Sum(l, OwnerItems(owner)) && p.occupiedBytes == Sum(l, OwnerBytes(owner))
         && p.limitItems == l.contract.maxOwnerClaimItems && p.limitBytes == l.contract.maxOwnerBytes
       case StageScope =>
         && p.occupiedItems == Sum(l, StageItems(stage)) && p.occupiedBytes == Sum(l, StageBytes(stage))
         && var policy := FindPolicy(l.contract.stagePolicies, stage);
         && policy.Some? && p.limitItems == policy.value.maxClaimItems && p.limitBytes == policy.value.maxBytes
  }

  /**
   A refused claim within the arithmetic range is real pressure: the error carries the exact
   occupancy of a limit that the claim would exceed, and the stage's own kind of saturation.
   */
  lemma RefusalIsPressure(l: Ledger, owner: nat, stage: Stage, bytes: nat)
    requires Inv(l) && bytes > 0 && l.nextClaim < U64_MAX
    requires Sum(l, Items()) < U64_MAX && Sum(l, Bytes()) + bytes <= U64_MAX
    ensures ClaimSingle(l, owner, stage, bytes).0.Err? ==>
              IsPressure(l, owner, stage, bytes, ClaimSingle(l, owner, stage, bytes).0.error)
  {
    OccupancyIsExact(l, owner, stage);
    StageHasPolicy(l.contract, stage);
    TotalMonotone(l.active, l.nextClaim, OwnerItems(owner), Items());
    TotalMonotone(l.active, l.nextClaim, OwnerBytes(owner), Bytes());
    TotalMonotone(l.active, l.nextClaim, StageItems(stage), Items());
    TotalMonotone(l.active, l.nextClaim, StageBytes(stage), Bytes());
    InUseIsSum(l);
    SaturationFollowsStage(l.contract, stage);
    hide Inv, Total, FindPolicy, OccupancyFor, ContractOk;
  }

  lemma SaturationFollowsStage(contract: Contract, stage: Stage)
    requires ContractOk(contract) && FindPolicy(contract.stagePolicies, stage).Some?
    ensures FindPolicy(contract.stagePolicies, stage).value.saturation ==
            (if stage.SpillAndSink? then SpillRequirement else Backpressure)
  {
    var policy := FindPolicy(contract.stagePolicies, stage).value;
    var i :| 0 <= i < |contract.stagePolicies| && contract.stagePolicies[i] == policy;
    assert PolicyOk(contract, contract.stagePolicies[i], STAGES[i]);
  }

  // ---------------------------------------------------------------------------
  // Claims keep the invariant

  /** Adding `claim` keeps every sum within its limit. */
  ghost predicate Admissible(l: Ledger, claim: Claim) {
    && Sum(l, Items()) + ClaimTotal(claim, Items()) <= l.contract.maxClaimItems
    && Sum(l, Bytes()) + ClaimTotal(claim, Bytes()) <= l.contract.capacityBytes
    && (forall o :: OwnerAdmits(l, claim, o))
    && (forall s :: StageAdmits(l, claim, s))
  }

  ghost predicate OwnerAdmits(l: Ledger, claim: Claim, o: nat) {
    && Sum(l, OwnerItems(o)) + ClaimTotal(claim, OwnerItems(o)) <= l.contract.maxOwnerClaimItems
    && Sum(l, OwnerBytes(o)) + ClaimTotal(claim, OwnerBytes(o)) <= l.contract.maxOwnerBytes
  }

  ghost predicate StageAdmits(l: Ledger, claim: Claim, s: Stage) {
    var policy := FindPolicy(l.contract.stagePolicies, s);
    && policy.Some?
    && Sum(l, StageItems(s)) + ClaimTotal(claim, StageItems(s)) <= policy.value.maxClaimItems
    && Sum(l, StageBytes(s)) + ClaimTotal(claim, StageBytes(s)) <= policy.value.maxBytes
  }

  lemma InsertSum(l: Ledger, claim: Claim, bytes: nat, w: Weight)
    requires InsertClaim(l, claim, bytes).0.Ok?
    ensures Sum(InsertClaim(l, claim, bytes).1, w) == Sum(l, w) + ClaimTotal(claim, w)
  {
    TotalInsert(l, claim, w);
  }

  lemma InsertKeeps(l: Ledger, claim: Claim, bytes: nat)
    requires Inv(l) && Admissible(l, claim) && bytes == ClaimTotal(claim, Bytes())
    requires forall k :: k in claim ==> claim[k].consumed == 0
    requires InsertClaim(l, claim, bytes).0.Ok?
    ensures Inv(InsertClaim(l, claim, bytes).1)
  {
    var l' := InsertClaim(l, claim, bytes).1;
    InsertSum(l, claim, bytes, Items());
    InsertSum(l, claim, bytes, Bytes());
    assert ClaimsOk(l') && PositionOk(l') && (forall s :: ConsumedFor(l', s) == ConsumedFor(l, s));
    hide Sum, ClaimTotal, FindPolicy, ClaimsOk, PositionOk, Items, Bytes, OwnerItems, OwnerBytes, StageItems,
        StageBytes;
    forall o ensures Within(l', OwnerItems(o), OwnerBytes(o), l.contract.maxOwnerClaimItems, l.contract.maxOwnerBytes) {
      InsertSum(l, claim, bytes, OwnerItems(o));
      InsertSum(l, claim, bytes, OwnerBytes(o));
      assert OwnerAdmits(l, claim, o);
    }
    forall s ensures StageOk(l', s) {
      InsertSum(l, claim, bytes, StageItems(s));
      InsertSum(l, claim, bytes, StageBytes(s));
      assert StageAdmits(l, claim, s);
    }
  }

  function SingleClaim(owner: nat, stage: Stage, bytes: nat): Claim {
    map[Single := ComponentClaim(owner, stage, bytes, 0)]
  }

  lemma FitsIffAdmissible(l: Ledger, owner: nat, stage: Stage, bytes: nat)
    requires Inv(l)
    ensures Fits(l, owner, stage, bytes, 0, 0) <==> Admissible(l, SingleClaim(owner, stage, bytes))
  {
    var claim := SingleClaim(owner, stage, bytes);
    hide Sum, FindPolicy, ClaimsOk, PositionOk;
    if Fits(l, owner, stage, bytes, 0, 0) {
      forall o ensures OwnerAdmits(l, claim, o) {
        assert Within(l, OwnerItems(o), OwnerBytes(o), l.contract.maxOwnerClaimItems, l.contract.maxOwnerBytes);
      }
      forall s ensures StageAdmits(l, claim, s) {
        assert StageOk(l, s);
      }
    }
    if Admissible(l, claim) {
      assert OwnerAdmits(l, claim, owner) && StageAdmits(l, claim, stage);
    }
  }

  lemma ClaimSingleKeeps(l: Ledger, owner: nat, stage: Stage, bytes: nat)
    requires Inv(l)
    ensures Inv(ClaimSingle(l, owner, stage, bytes).1)
    ensures ClaimSingle(l, owner, stage, bytes).0.Err? ==> ClaimSingle(l, owner, stage, bytes).1 == l
    ensures ClaimSingle(l, owner, stage, bytes).0.Ok? <==>
              bytes > 0 && Admissible(l, SingleClaim(owner, stage, bytes)) && l.nextClaim < U64_MAX
  {
    AdmissionMeansFits(l, owner, stage, bytes, 0, 0);
    FitsIffAdmissible(l, owner, stage, bytes);
    var claim := SingleClaim(owner, stage, bytes);
    assert ClaimTotal(claim, Bytes()) == bytes;
    hide Inv, CheckAdmission, Fits, ClaimTotal;
    if Admissible(l, claim) {
      InUseIsSum(l);
      if bytes > 0 && l.nextClaim < U64_MAX {
        InsertKeeps(l, claim, bytes);
      }
    }
  }

  lemma InUseIsSum(l: Ledger)
    requires Inv(l)
    ensures l.inUse == Sum(l, Bytes()) <= l.contract.capacityBytes <= U64_MAX
  {
  }

  // ---------------------------------------------------------------------------
  // Coupled claims

  lemma CoupledTotal(owner: nat, r: Reservation, w: Weight)
    ensures ClaimTotal(CoupledClaim(owner, r), w)
         == ClaimTotal(SingleClaim(owner, r.inputStage, r.inputBytes), w)
          + ClaimTotal(SingleClaim(owner, r.outputStage, r.outputBytes), w)
  {
  }

  /** The three checks of a coupled claim, read as sums. */
  ghost predicate CoupledFits(l: Ledger, owner: nat, r: Reservation) {
    && Fits(l, owner, r.inputStage, r.inputBytes, 0, 0)
    && Fits(l, owner, r.outputStage, r.outputBytes, 1, r.inputBytes)
    && (r.inputStage == r.outputStage ==>
          && Sum(l, StageItems(r.inputStage)) + 2
             <= FindPolicy(l.contract.stagePolicies, r.inputStage).value.maxClaimItems
          && Sum(l, StageBytes(r.inputStage)) + r.inputBytes + r.outputBytes
             <= FindPolicy(l.contract.stagePolicies, r.inputStage).value.maxBytes)
  }

  lemma SameStageMeansFits(l: Ledger, owner: nat, r: Reservation, total: nat)
    requires Inv(l) && r.inputStage == r.outputStage && total == r.inputBytes + r.outputBytes
    ensures var policy := FindPolicy(l.contract.stagePolicies, r.inputStage);
            policy.Some? &&
            (CheckSameStage(l, owner, r, total).Ok? <==>
               && Sum(l, StageItems(r.inputStage)) + 2 <= policy.value.maxClaimItems
               && Sum(l, StageBytes(r.inputStage)) + total <= policy.value.maxBytes)
  {
    OccupancyIsExact(l, owner, r.inputStage);
    StageHasPolicy(l.contract, r.inputStage);
    hide Sum, FindPolicy, OccupancyFor, ClaimsOk, OwnersOk, StagesOk, PositionOk;
  }

  lemma CoupledFitsAdmits(l: Ledger, owner: nat, r: Reservation)
    requires Inv(l) && CoupledFits(l, owner, r)
    ensures Admissible(l, CoupledClaim(owner, r))
  {
    var claim := CoupledClaim(owner, r);
    hide Sum, FindPolicy, ClaimsOk, PositionOk, ContractOk;
    forall o ensures OwnerAdmits(l, claim, o) {
      assert Within(l, OwnerItems(o), OwnerBytes(o), l.contract.maxOwnerClaimItems, l.contract.maxOwnerBytes);
    }
    forall s ensures StageAdmits(l, claim, s) {
      assert StageOk(l, s);
    }
  }

  lemma AdmittedCoupledFits(l: Ledger, owner: nat, r: Reservation)
    requires Inv(l) && Admissible(l, CoupledClaim(owner, r))
    ensures CoupledFits(l, owner, r)
  {
    var claim := CoupledClaim(owner, r);
    assert OwnerAdmits(l, claim, owner);
    assert StageAdmits(l, claim, r.inputStage) && StageAdmits(l, claim, r.outputStage);
    hide Sum, FindPolicy, Inv;
  }

  lemma CoupledFitsIffAdmissible(l: Ledger, owner: nat, r: Reservation)
    requires Inv(l)
    ensures CoupledFits(l, owner, r) <==> Admissible(l, CoupledClaim(owner, r))
  {
    hide Inv, CoupledFits, Admissible;
    if CoupledFits(l, owner, r) { CoupledFitsAdmits(l, owner, r); }
    if Admissible(l, CoupledClaim(owner, r)) { AdmittedCoupledFits(l, owner, r); }
  }

  /** The checks of a coupled claim all pass exactly when its sums fit. */
  lemma CoupledChecksMeanFits(l: Ledger, owner: nat, r: Reservation)
    requires Inv(l)
    ensures CoupledFits(l, owner, r) <==>
              && CheckAdmission(l, owner, r.inputStage, 1, r.inputBytes, 0, 0).Ok?
              && CheckAdmission(l, owner, r.outputStage, 1, r.outputBytes, 1, r.inputBytes).Ok?
              && CheckSameStage(l, owner, r, r.inputBytes + r.outputBytes).Ok?
    ensures CoupledFits(l, owner, r) ==> l.inUse + r.inputBytes + r.outputBytes <= U64_MAX
  {
    hide Inv, CheckAdmission, Sum, FindPolicy;
    AdmissionMeansFits(l, owner, r.inputStage, r.inputBytes, 0, 0);
    AdmissionMeansFits(l, owner, r.outputStage, r.outputBytes, 1, r.inputBytes);
    InUseIsSum(l);
    if r.inputStage == r.outputStage {
      SameStageMeansFits(l, owner, r, r.inputBytes + r.outputBytes);
    }
  }

  lemma ClaimCoupledKeeps(l: Ledger, owner: nat, r: Reservation)
    requires Inv(l)
    ensures Inv(ClaimCoupled(l, owner, r).1)
    ensures ClaimCoupled(l, owner, r).0.Err? ==> ClaimCoupled(l, owner, r).1 == l
    ensures ClaimCoupled(l, owner, r).0.Ok? <==>
              && r.inputBytes > 0 && r.outputBytes > 0
              && Admissible(l, CoupledClaim(owner, r)) && l.nextClaim < U64_MAX
    ensures ClaimCoupled(l, owner, r).0.Ok? ==>
              ClaimCoupled(l, owner, r).1 == InsertClaim(l, CoupledClaim(owner, r), r.inputBytes + r.outputBytes).1
  {
    hide Inv, CheckAdmission, CheckSameStage, CoupledFits, Sum, FindPolicy, Admissible, ClaimTotal, CoupledClaim;
    CoupledChecksMeanFits(l, owner, r);
    CoupledFitsIffAdmissible(l, owner, r);
    CoupledIsFresh(owner, r);
    if r.inputBytes > 0 && r.outputBytes > 0 && Admissible(l, CoupledClaim(owner, r)) && l.nextClaim < U64_MAX {
      InsertKeeps(l, CoupledClaim(owner, r), r.inputBytes + r.outputBytes);
    }
  }

  lemma CoupledIsFresh(owner: nat, r: Reservation)
    ensures ClaimTotal(CoupledClaim(owner, r), Bytes()) == r.inputBytes + r.outputBytes
    ensures forall k :: k in CoupledClaim(owner, r) ==> CoupledClaim(owner, r)[k].consumed == 0
  {
  }

  /** Admitting two claims one after the other is admitting their sum. */
  lemma AdmissibleInSequence(l: Ledger, l1: Ledger, owner: nat, r: Reservation)
    requires l1.contract == l.contract
    requires forall w: Weight :: Sum(l1, w) == Sum(l, w) + ClaimTotal(SingleClaim(owner, r.inputStage, r.inputBytes), w)
    ensures Admissible(l1, SingleClaim(owner, r.outputStage, r.outputBytes)) <==> Admissible(l, CoupledClaim(owner, r))
  {
    var (coupled, second) := (CoupledClaim(owner, r), SingleClaim(owner, r.outputStage, r.outputBytes));
    forall w: Weight ensures Sum(l1, w) + ClaimTotal(second, w) == Sum(l, w) + ClaimTotal(coupled, w) {
      CoupledTotal(owner, r, w);
    }
    hide Sum, ClaimTotal, CoupledClaim, SingleClaim, FindPolicy;
    assert Admissible(l1, second) ==> Admissible(l, coupled) by {
      if Admissible(l1, second) {
        forall o ensures OwnerAdmits(l, coupled, o) { assert OwnerAdmits(l1, second, o); }
        forall s ensures StageAdmits(l, coupled, s) { assert StageAdmits(l1, second, s); }
      }
    }
    assert Admissible(l, coupled) ==> Admissible(l1, second) by {
      if Admissible(l, coupled) {
        forall o ensures OwnerAdmits(l1, second, o) { assert OwnerAdmits(l, coupled, o); }
        forall s ensures StageAdmits(l1, second, s) { assert StageAdmits(l, coupled, s); }
      }
    }
  }

  lemma CoupledAdmitsInput(l: Ledger, owner: nat, r: Reservation)
    requires Admissible(l, CoupledClaim(owner, r))
    ensures Admissible(l, SingleClaim(owner, r.inputStage, r.inputBytes))
  {
    var (coupled, first) := (CoupledClaim(owner, r), SingleClaim(owner, r.inputStage, r.inputBytes));
    forall w: Weight ensures ClaimTotal(first, w) <= ClaimTotal(coupled, w) {
      CoupledTotal(owner, r, w);
    }
    hide Sum, ClaimTotal, CoupledClaim, SingleClaim, FindPolicy;
    forall o ensures OwnerAdmits(l, first, o) { assert OwnerAdmits(l, coupled, o); }
    forall s ensures StageAdmits(l, first, s) { assert StageAdmits(l, coupled, s); }
  }

  /**
   Claiming input and output one after the other as two single claims succeeds exactly when
   the coupled claim succeeds and a second claim number is left, the shared-stage case
   included. Both ways charge the same to every global, owner and stage sum, and a refused
   coupled claim changes nothing.
   */
  lemma CoupledRefinesSequential(l: Ledger, owner: nat, r: Reservation)
    requires Inv(l)
    ensures var (both, l2) := ClaimCoupled(l, owner, r);
            var (first, l') := ClaimSingle(l, owner, r.inputStage, r.inputBytes);
            var (second, l'') := ClaimSingle(l', owner, r.outputStage, r.outputBytes);
            && (first.Ok? && second.Ok? <==> both.Ok? && l.nextClaim + 1 < U64_MAX)
            && (first.Ok? && second.Ok? ==> l2.inUse == l''.inUse && forall w: Weight :: Sum(l2, w) == Sum(l'', w))
            && (both.Err? ==> l2 == l)
  {
    var (both, l2) := ClaimCoupled(l, owner, r);
    var (first, l') := ClaimSingle(l, owner, r.inputStage, r.inputBytes);
    var (second, l'') := ClaimSingle(l', owner, r.outputStage, r.outputBytes);
    var (c1, c2) := (SingleClaim(owner, r.inputStage, r.inputBytes), SingleClaim(owner, r.outputStage, r.outputBytes));
    hide Inv, ClaimSingle, ClaimCoupled, Admissible, Sum, ClaimTotal, CoupledClaim, SingleClaim;
    ClaimCoupledKeeps(l, owner, r);
    ClaimSingleKeeps(l, owner, r.inputStage, r.inputBytes);
    ClaimSingleKeeps(l', owner, r.outputStage, r.outputBytes);
    if first.Ok? { SingleInserts(l, owner, r.inputStage, r.inputBytes); }
    if second.Ok? { SingleInserts(l', owner, r.outputStage, r.outputBytes); }
    if both.Ok? { CoupledInserts(l, owner, r); }
    if both.Ok? {
      CoupledAdmitsInput(l, owner, r);
    }
    if first.Ok? {
      forall w: Weight ensures Sum(l', w) == Sum(l, w) + ClaimTotal(c1, w) { InsertSum(l, c1, r.inputBytes, w); }
      AdmissibleInSequence(l, l', owner, r);
    }
    if both.Ok? && second.Ok? {
      forall w: Weight ensures Sum(l2, w) == Sum(l'', w) {
        CoupledTotal(owner, r, w);
        InsertSum(l, CoupledClaim(owner, r), r.inputBytes + r.outputBytes, w);
        InsertSum(l, c1, r.inputBytes, w);
        InsertSum(l', c2, r.outputBytes, w);
      }
    }
  }

  lemma SingleInserts(l: Ledger, owner: nat, stage: Stage, bytes: nat)
    requires ClaimSingle(l, owner, stage, bytes).0.Ok?
    ensures InsertClaim(l, SingleClaim(owner, stage, bytes), bytes).0.Ok?
    ensures ClaimSingle(l, owner, stage, bytes).1 == InsertClaim(l, SingleClaim(owner, stage, bytes), bytes).1
  {
  }

  lemma CoupledInserts(l: Ledger, owner: nat, r: Reservation)
    requires ClaimCoupled(l, owner, r).0.Ok?
    ensures InsertClaim(l, CoupledClaim(owner, r), r.inputBytes + r.outputBytes).0.Ok?
  {
  }

  // ---------------------------------------------------------------------------
  // Transfer, consumption, release and advance

  lemma WithSum(l: Ledger, id: nat, k: Component, c: ComponentClaim, w: Weight)
    requires Has(l, id, k) && id < l.nextClaim
    ensures Sum(With(l, id, k, c), w) + w(l.active[id][k]) == Sum(l, w) + w(c)
  {
    TotalReplace(l.active, id, l.active[id][k := c], l.nextClaim, w);
  }

  /** Replacing a component by one of the same stage and size changes at most the owners' sums. */
  lemma WithKeeps(l: Ledger, id: nat, k: Component, c: ComponentClaim)
    requires Inv(l) && Has(l, id, k)
    requires c.stage == l.active[id][k].stage && c.bytes == l.active[id][k].bytes && c.consumed <= c.bytes
    ensures var l' := With(l, id, k, c);
            ClaimsOk(l') && GlobalOk(l') && StagesOk(l') && PositionOk(l') && LimitsOk(l')
  {
    var l' := With(l, id, k, c);
    WithSum(l, id, k, c, Items());
    WithSum(l, id, k, c, Bytes());
    assert ClaimsOk(l') && PositionOk(l') && (forall s :: ConsumedFor(l', s) == ConsumedFor(l, s));
    hide Sum, FindPolicy, ClaimsOk, PositionOk, OwnersOk, ContractOk;
    forall s ensures StageOk(l', s) {
      WithSum(l, id, k, c, StageItems(s));
      WithSum(l, id, k, c, StageBytes(s));
      assert StageOk(l, s);
    }
  }

  lemma TransferKeeps(l: Ledger, id: nat, k: Component, to: nat)
    requires Inv(l)
    ensures Inv(Transfer(l, id, k, to).1)
    ensures Transfer(l, id, k, to).0.Err? ==> Transfer(l, id, k, to).1 == l
  {
    var (r, l') := Transfer(l, id, k, to);
    if r.Ok? && l.active[id][k].owner != to {
      var c := l.active[id][k];
      var c' := c.(owner := to);
      WithKeeps(l, id, k, c');
      OccupancyIsExact(l, to, c.stage);
      assert CheckOwnerTransfer(l, to, c).Ok? && l' == With(l, id, k, c');
      hide Sum, ClaimsOk, PositionOk, StagesOk, LimitsOk, FindPolicy, With;
      forall o ensures Within(l', OwnerItems(o), OwnerBytes(o), l'.contract.maxOwnerClaimItems,
                              l'.contract.maxOwnerBytes) {
        TransferOwner(l, id, k, to, o);
      }
    }
  }

  lemma TransferOwner(l: Ledger, id: nat, k: Component, to: nat, o: nat)
    requires Inv(l) && Has(l, id, k) && l.active[id][k].owner != to
    requires CheckOwnerTransfer(l, to, l.active[id][k]).Ok?
    ensures Within(With(l, id, k, l.active[id][k].(owner := to)), OwnerItems(o), OwnerBytes(o),
                   l.contract.maxOwnerClaimItems, l.contract.maxOwnerBytes)
    ensures With(l, id, k, l.active[id][k].(owner := to)).contract == l.contract
  {
    var c := l.active[id][k];
    OccupancyIsExact(l, to, c.stage);
    WithSum(l, id, k, c.(owner := to), OwnerItems(o));
    WithSum(l, id, k, c.(owner := to), OwnerBytes(o));
    assert Within(l, OwnerItems(o), OwnerBytes(o), l.contract.maxOwnerClaimItems, l.contract.maxOwnerBytes);
    hide Sum, FindPolicy, OccupancyFor;
  }

  lemma ConsumeKeeps(l: Ledger, id: nat, k: Component, bytes: nat)
    requires Inv(l)
    ensures Inv(Consume(l, id, k, bytes).1)
    ensures Consume(l, id, k, bytes).0.Err? ==> Consume(l, id, k, bytes).1 == l
    ensures Consume(l, id, k, bytes).0 != Err(InvariantViolation)
  {
    var (r, l') := Consume(l, id, k, bytes);
    if r.Ok? {
      var c := l.active[id][k];
      var c' := c.(consumed := c.consumed + bytes);
      WithKeeps(l, id, k, c');
      var mid := With(l, id, k, c');
      assert l' == mid.(consumed := l.consumed[c.stage := ConsumedFor(l, c.stage) + bytes]);
      hide Sum, FindPolicy;
      forall o ensures Within(l', OwnerItems(o), OwnerBytes(o), l'.contract.maxOwnerClaimItems,
                              l'.contract.maxOwnerBytes) {
        WithSum(l, id, k, c', OwnerItems(o));
        WithSum(l, id, k, c', OwnerBytes(o));
        assert Within(l, OwnerItems(o), OwnerBytes(o), l.contract.maxOwnerClaimItems, l.contract.maxOwnerBytes);
        SumFrame(mid, l', OwnerItems(o));
        SumFrame(mid, l', OwnerBytes(o));
      }
      ConsumedFrame(mid, l');
    }
  }

  lemma SumFrame(l: Ledger, l': Ledger, w: Weight)
    requires l'.active == l.active && l'.nextClaim == l.nextClaim
    ensures Sum(l', w) == Sum(l, w)
  {
  }

  /** Only the consumption tallies grew. */
  lemma ConsumedFrame(l: Ledger, l': Ledger)
    requires ClaimsOk(l) && GlobalOk(l) && StagesOk(l) && PositionOk(l) && LimitsOk(l)
    requires l' == l.(consumed := l'.consumed)
    requires forall s :: ConsumedFor(l, s) <= ConsumedFor(l', s) <= U64_MAX
    ensures ClaimsOk(l') && GlobalOk(l') && StagesOk(l') && PositionOk(l') && LimitsOk(l')
  {
    forall w: Weight ensures Sum(l', w) == Sum(l, w) { SumFrame(l, l', w); }
    hide Sum, FindPolicy;
    forall s ensures StageOk(l', s) { assert StageOk(l, s); }
  }

  lemma ReleaseSum(l: Ledger, id: nat, w: Weight)
    requires id in l.active && id < l.nextClaim && Release(l, id).0.Ok?
    ensures Sum(Release(l, id).1, w) + ClaimTotal(l.active[id], w) == Sum(l, w)
  {
    TotalRemove(l.active, id, l.nextClaim, w);
  }

  lemma ReleaseKeeps(l: Ledger, id: nat)
    requires Inv(l)
    ensures Inv(Release(l, id).1)
    ensures Release(l, id).0.Err? ==> Release(l, id).1 == l
    ensures Release(l, id).0.Ok? <==> id in l.active
  {
    if id in l.active {
      TotalRemove(l.active, id, l.nextClaim, Bytes());
      var l' := Release(l, id).1;
      ReleaseSum(l, id, Items());
      ReleaseSum(l, id, Bytes());
      assert ClaimsOk(l') && PositionOk(l') && (forall s :: ConsumedFor(l', s) == ConsumedFor(l, s));
      assert GlobalOk(l');
      hide Sum, ClaimTotal, FindPolicy, ClaimsOk, PositionOk, GlobalOk, ContractOk;
      forall o ensures Within(l', OwnerItems(o), OwnerBytes(o), l'.contract.maxOwnerClaimItems,
                              l'.contract.maxOwnerBytes) {
        ReleaseSum(l, id, OwnerItems(o));
        ReleaseSum(l, id, OwnerBytes(o));
        assert Within(l, OwnerItems(o), OwnerBytes(o), l.contract.maxOwnerClaimItems, l.contract.maxOwnerBytes);
      }
      forall s ensures StageOk(l', s) {
        ReleaseSum(l, id, StageItems(s));
        ReleaseSum(l, id, StageBytes(s));
        assert StageOk(l, s);
      }
    }
  }

  /**
   A transfer is accepted exactly when the component exists, is untouched, and fits its new
   owner; it then moves that component's item and bytes between the two owners' sums and
   leaves every global and stage sum as it was.
   */
  lemma TransferMoves(l: Ledger, id: nat, k: Component, to: nat)
    requires Inv(l)
    ensures var (r, l') := Transfer(l, id, k, to);
            && (r.Ok? <==>
                  && Has(l, id, k) && l.active[id][k].consumed == 0
                  && (l.active[id][k].owner != to ==>
                        && Sum(l, OwnerItems(to)) + 1 <= l.contract.maxOwnerClaimItems
                        && Sum(l, OwnerBytes(to)) + l.active[id][k].bytes <= l.contract.maxOwnerBytes))
            && (r.Ok? ==>
                  && var c := l.active[id][k];
                  && Has(l', id, k) && l'.active[id][k] == c.(owner := to)
                  && (forall w: Weight :: Sum(l', w) + w(c) == Sum(l, w) + w(c.(owner := to)))
                  && l'.inUse == l.inUse && l'.position == l.position && l'.consumed == l.consumed)
  {
    var (r, l') := Transfer(l, id, k, to);
    if Has(l, id, k) {
      var c := l.active[id][k];
      OccupancyIsExact(l, to, c.stage);
      assert l.contract.maxOwnerClaimItems <= U64_MAX && l.contract.maxOwnerBytes <= U64_MAX;
      assert id < l.nextClaim;
      hide Sum, Inv, FindPolicy, OccupancyFor;
      if r.Ok? {
        forall w: Weight ensures Sum(l', w) + w(c) == Sum(l, w) + w(c.(owner := to)) {
          if c.owner != to { WithSum(l, id, k, c.(owner := to), w); }
        }
      }
    }
  }

  /**
   Consumption is accepted exactly within the component's remaining credit, and frees
   nothing: only the component and its stage's lifetime tally change, no occupancy does.
   */
  lemma ConsumeSpends(l: Ledger, id: nat, k: Component, bytes: nat)
    requires Inv(l)
    ensures var (r, l') := Consume(l, id, k, bytes);
            && (r.Ok? <==>
                  && Has(l, id, k) && l.active[id][k].consumed + bytes <= l.active[id][k].bytes
                  && ConsumedFor(l, l.active[id][k].stage) + bytes <= U64_MAX)
            && (r.Ok? ==>
                  && var c := l.active[id][k];
                  && Has(l', id, k) && l'.active[id][k] == c.(consumed := c.consumed + bytes)
                  && (forall s :: ConsumedFor(l', s) == ConsumedFor(l, s) + if s == c.stage then bytes else 0)
                  && (forall w: Weight :: Sum(l', w) + w(c) == Sum(l, w) + w(l'.active[id][k]))
                  && l'.inUse == l.inUse && l'.position == l.position)
  {
    var (r, l') := Consume(l, id, k, bytes);
    if r.Ok? {
      var c := l.active[id][k];
      var c' := c.(consumed := c.consumed + bytes);
      assert id < l.nextClaim;
      var mid := With(l, id, k, c');
      forall w: Weight ensures Sum(l', w) + w(c) == Sum(l, w) + w(c') {
        WithSum(l, id, k, c', w);
        SumFrame(mid, l', w);
      }
    }
    hide Sum, FindPolicy;
  }

  /**
   Claiming and releasing undo each other: the released claim is the one claimed, and apart
   from the used-up number the ledger is back where it was.
   */
  lemma ReleaseUndoesClaim(l: Ledger, owner: nat, stage: Stage, bytes: nat)
    requires Inv(l)
    ensures var (r, l1) := ClaimSingle(l, owner, stage, bytes);
            r.Ok? ==> Release(l1, r.value) == (Ok(SingleClaim(owner, stage, bytes)), l.(nextClaim := l.nextClaim + 1))
  {
    var (r, l1) := ClaimSingle(l, owner, stage, bytes);
    if r.Ok? {
      ReleaseUndoesInsert(l, SingleClaim(owner, stage, bytes), bytes);
    }
    hide CheckAdmission, Inv;
  }

  lemma ReleaseUndoesCoupledClaim(l: Ledger, owner: nat, r: Reservation)
    requires Inv(l)
    ensures var (both, l1) := ClaimCoupled(l, owner, r);
            both.Ok? ==> Release(l1, both.value) == (Ok(CoupledClaim(owner, r)), l.(nextClaim := l.nextClaim + 1))
  {
    hide CheckAdmission, CheckSameStage, Inv;
    if ClaimCoupled(l, owner, r).0.Ok? {
      CoupledIsFresh(owner, r);
      ReleaseUndoesInsert(l, CoupledClaim(owner, r), r.inputBytes + r.outputBytes);
    }
  }

  lemma ReleaseUndoesInsert(l: Ledger, claim: Claim, bytes: nat)
    requires Inv(l) && InsertClaim(l, claim, bytes).0.Ok? && bytes == ClaimTotal(claim, Bytes())
    ensures Release(InsertClaim(l, claim, bytes).1, l.nextClaim) == (Ok(claim), l.(nextClaim := l.nextClaim + 1))
  {
    var l1 := InsertClaim(l, claim, bytes).1;
    assert l.nextClaim !in l.active;
    assert l1.active - {l.nextClaim} == l.active;
    hide Sum, FindPolicy, ClaimTotal;
  }

  /** Positions advance exactly to where they stay ordered, covered by consumption, and not behind. */
  lemma AdvanceIffCovered(l: Ledger, next: Position)
    ensures Advance(l, next).0.Ok? <==>
              && PositionOk(l.(position := next))
              && l.position.received <= next.received
              && l.position.written <= next.written
              && l.position.durable <= next.durable
    ensures Advance(l, next).0.Ok? ==> Advance(l, next).1 == l.(position := next)
  {
  }

  lemma AdvanceKeeps(l: Ledger, next: Position)
    requires Inv(l)
    ensures Inv(Advance(l, next).1)
    ensures Advance(l, next).0.Err? ==> Advance(l, next).1 == l
  {
    var l' := Advance(l, next).1;
    assert PositionOk(l') && (forall s :: ConsumedFor(l', s) == ConsumedFor(l, s));
    forall w: Weight ensures Sum(l', w) == Sum(l, w) { SumFrame(l, l', w); }
    hide Sum, FindPolicy, ContractOk;
    forall o ensures Within(l', OwnerItems(o), OwnerBytes(o), l'.contract.maxOwnerClaimItems,
                            l'.contract.maxOwnerBytes) {
      assert Within(l, OwnerItems(o), OwnerBytes(o), l.contract.maxOwnerClaimItems, l.contract.maxOwnerBytes);
    }
    forall s ensures StageOk(l', s) { assert StageOk(l, s); }
  }

  // ---------------------------------------------------------------------------
  // Histories

  datatype Op =
    | ClaimOp(owner: nat, stage: Stage, bytes: nat)
    | ClaimCoupledOp(owner: nat, reservation: Reservation)
    | TransferOp(id: nat, component: Component, to: nat)
    | ConsumeOp(id: nat, component: Component, bytes: nat)
    | ReleaseOp(id: nat)
    | AdvanceOp(next: Position)

  function Step(l: Ledger, op: Op): Ledger {
    match op
    case ClaimOp(owner, stage, bytes) => ClaimSingle(l, owner, stage, bytes).1
    case ClaimCoupledOp(owner, reservation) => ClaimCoupled(l, owner, reservation).1
    case TransferOp(id, component, to) => Transfer(l, id, component, to).1
    case ConsumeOp(id, component, bytes) => Consume(l, id, component, bytes).1
    case ReleaseOp(id) => Release(l, id).1
    case AdvanceOp(next) => Advance(l, next).1
  }

  function Run(l: Ledger, ops: seq<Op>): Ledger
    decreases |ops|
  {
    if ops == [] then l else Run(Step(l, ops[0]), ops[1..])
  }

  /** Bytes an operation really consumed in a stage: those of an accepted consumption of that stage. */
  function ConsumedBy(l: Ledger, op: Op, stage: Stage): nat {
    if op.ConsumeOp? && Consume(l, op.id, op.component, op.bytes).0.Ok? && l.active[op.id][op.component].stage == stage
    then op.bytes else 0
  }

  function Tally(l: Ledger, ops: seq<Op>, stage: Stage): nat
    decreases |ops|
  {
    if ops == [] then 0 else ConsumedBy(l, ops[0], stage) + Tally(Step(l, ops[0]), ops[1..], stage)
  }

  /** What the ledger's own self-check demands. */
  ghost predicate VerifyPasses(l: Ledger) {
    && NothingOverspent(l)
    && Sum(l, Bytes()) == l.inUse <= l.contract.capacityBytes
    && Sum(l, Bytes()) <= U64_MAX
    && ValidateNextPosition(l, l.position).Ok?
    && (forall i :: 0 <= i < |l.contract.stages| ==> StageVerified(l, l.contract.stages[i]))
    && (forall owner :: Owns(l, owner) ==> OwnerVerified(l, owner))
  }

  /** A component of a claim issued so far. */
  predicate Live(l: Ledger, id: nat, k: Component) {
    id < l.nextClaim && id in l.active && k in l.active[id]
  }

  ghost predicate NothingOverspent(l: Ledger) {
    forall id, k :: Live(l, id, k) ==> l.active[id][k].consumed <= l.active[id][k].bytes
  }

  ghost predicate Owns(l: Ledger, owner: nat) {
    exists id, k :: Live(l, id, k) && l.active[id][k].owner == owner
  }

  predicate StageVerified(l: Ledger, s: Stage) {
    var policy := FindPolicy(l.contract.stagePolicies, s);
    var o := OccupancyFor(l, U64_MAX, s);
    && policy.Some? && o.Ok?
    && o.value.stageItems <= policy.value.maxClaimItems && o.value.stageBytes <= policy.value.maxBytes
  }

  predicate OwnerVerified(l: Ledger, owner: nat) {
    var o := OccupancyFor(l, owner, HttpReceive);
    o.Ok? && o.value.ownerItems <= l.contract.maxOwnerClaimItems && o.value.ownerBytes <= l.contract.maxOwnerBytes
  }

  lemma InvPassesVerify(l: Ledger)
    requires Inv(l)
    ensures VerifyPasses(l)
  {
    hide Sum, OccupancyFor, FindPolicy;
    forall s ensures StageVerified(l, s) {
      OccupancyIsExact(l, U64_MAX, s);
      assert StageOk(l, s);
    }
    forall o ensures OwnerVerified(l, o) {
      OccupancyIsExact(l, o, HttpReceive);
      assert Within(l, OwnerItems(o), OwnerBytes(o), l.contract.maxOwnerClaimItems, l.contract.maxOwnerBytes);
    }
  }

  lemma StepKeeps(l: Ledger, op: Op)
    requires Inv(l)
    ensures Inv(Step(l, op))
  {
    hide Inv, ClaimSingle, ClaimCoupled, Transfer, Consume, Release, Advance;
    match op
    case ClaimOp(owner, stage, bytes) => ClaimSingleKeeps(l, owner, stage, bytes);
    case ClaimCoupledOp(owner, reservation) => ClaimCoupledKeeps(l, owner, reservation);
    case TransferOp(id, component, to) => TransferKeeps(l, id, component, to);
    case ConsumeOp(id, component, bytes) => ConsumeKeeps(l, id, component, bytes);
    case ReleaseOp(id) => ReleaseKeeps(l, id);
    case AdvanceOp(next) => AdvanceKeeps(l, next);
  }

  /** Positions only move forward, and each tally grows by exactly what was consumed. */
  lemma StepAdvances(l: Ledger, op: Op, stage: Stage)
    ensures var l' := Step(l, op);
            && l.position.received <= l'.position.received
            && l.position.written <= l'.position.written
            && l.position.durable <= l'.position.durable
            && ConsumedFor(l', stage) == ConsumedFor(l, stage) + ConsumedBy(l, op, stage)
  {
    hide CheckAdmission, CheckOwnerTransfer, ClaimTotal, CheckSameStage;
  }

  /** The conditions a ledger meets in every state any history can reach. */
  lemma {:induction false} ReachableIsBounded(l: Ledger, ops: seq<Op>)
    requires Inv(l)
    ensures Inv(Run(l, ops)) && VerifyPasses(Run(l, ops))
    decreases |ops|
  {
    hide Inv, Step, VerifyPasses;
    if ops == [] {
      InvPassesVerify(l);
    } else {
      StepKeeps(l, ops[0]);
      ReachableIsBounded(Step(l, ops[0]), ops[1..]);
    }
  }

  lemma FreshIsBounded(contract: Contract)
    requires FromContract(contract).Ok? && contract.capacityBytes <= U64_MAX && contract.maxClaimItems <= U64_MAX
    ensures Inv(FromContract(contract).value)
  {
    var l := FromContract(contract).value;
    forall w: Weight ensures Sum(l, w) == 0 { TotalNothing(1, w); }
    hide Sum, FindPolicy;
    forall s ensures StageOk(l, s) { StageHasPolicy(contract, s); }
    assert forall o :: Within(l, OwnerItems(o), OwnerBytes(o), contract.maxOwnerClaimItems, contract.maxOwnerBytes);
  }

  /**
   Durability over any history: each stage's lifetime tally equals the sum of all accepted
   consumption in that stage, whatever has been released since; the positions never move
   back and stay ordered, the received position within the tally of the receiving stage
   and the written position within the tally of the writing stage.
   */
  lemma {:induction false} PositionsFollowConsumption(l: Ledger, ops: seq<Op>, stage: Stage)
    requires Inv(l)
    ensures var end := Run(l, ops);
            && ConsumedFor(end, stage) == ConsumedFor(l, stage) + Tally(l, ops, stage)
            && l.position.received <= end.position.received
            && l.position.written <= end.position.written
            && l.position.durable <= end.position.durable
            && end.position.durable <= end.position.written <= end.position.received
            && end.position.received <= ConsumedFor(end, HttpReceive)
            && end.position.written <= ConsumedFor(end, Writer)
    decreases |ops|
  {
    hide Step, ConsumedBy, ConsumedFor;
    if ops == [] {
      PositionWithin(l);
    } else {
      StepKeeps(l, ops[0]);
      StepAdvances(l, ops[0], stage);
      hide Inv;
      PositionsFollowConsumption(Step(l, ops[0]), ops[1..], stage);
    }
  }

  lemma GoneStaysGone(l: Ledger, op: Op, id: nat)
    requires 0 < id < l.nextClaim && id !in l.active
    ensures id !in Step(l, op).active && id < Step(l, op).nextClaim
  {
    hide CheckAdmission, CheckSameStage, CheckOwnerTransfer, ClaimTotal, CoupledClaim;
  }

  lemma {:induction false} GoneForGood(l: Ledger, ops: seq<Op>, id: nat)
    requires 0 < id < l.nextClaim && id !in l.active
    ensures id !in Run(l, ops).active && id < Run(l, ops).nextClaim
    decreases |ops|
  {
    hide Step;
    if ops != [] {
      GoneStaysGone(l, ops[0], id);
      GoneForGood(Step(l, ops[0]), ops[1..], id);
    }
  }

  /**
   Release happens exactly once: whatever comes after an accepted release, the claim can be
   neither released again nor spent nor transferred.
   */
  lemma ReleasedOnlyOnce(l: Ledger, id: nat, ops: seq<Op>, k: Component, bytes: nat, to: nat)
    requires Inv(l) && Release(l, id).0.Ok?
    ensures var later := Run(Release(l, id).1, ops);
            && Release(later, id) == (Err(ClaimAlreadyReleased(id)), later)
            && Consume(later, id, k, bytes) == (Err(ClaimAlreadyReleased(id)), later)
            && Transfer(later, id, k, to) == (Err(ClaimAlreadyReleased(id)), later)
  {
    assert 0 < id < l.nextClaim;
    hide Run, Inv, ClaimTotal;
    GoneForGood(Release(l, id).1, ops, id);
  }

  lemma PositionWithin(l: Ledger)
    requires Inv(l)
    ensures l.position.durable <= l.position.written <= l.position.received <= ConsumedFor(l, HttpReceive)
    ensures l.position.written <= ConsumedFor(l, Writer)
  {
  }
}
