/**
 When the byte-durability machine acknowledges, in numbers, and what it can reach: every
 reply to an acknowledgement, and a run from an empty machine and a fresh ledger to the
 durable phase.
 */
module ByteRuns {
  import opened Wrappers
  import opened StateMachines
  import opened ByteLifecycles
  import Credit = ByteCredits
  import List = MoveLists

  // ---------------------------------------------------------------------------
  // A batch that is outstanding as a whole has not gone wrong

  ghost predicate Clean<S>(m: Machine<S>) {
    m.deferred.Some? ==>
      && |m.pending| <= |m.deferred.value.effects|
      && (|m.pending| == |m.deferred.value.effects| ==> !m.deferred.value.hasUnsuccessfulOutcome)
  }

  lemma EnterClean<S>(m: Machine<S>, event: Event, next: S, effects: seq<EffectIntent>)
    requires Clean(m)
    ensures Clean(Enter(m, event, next, effects).1)
  {
  }

  lemma SettleClean<S>(table: Table<S>, m: Machine<S>, d: Deferred<S>, event: Event)
    requires Clean(m) && m.deferred == Some(d)
    ensures Clean(Settle(table, m, d, event).1)
  {
    hide Enter, Position, OutcomeError;
    EnterClean(m, event, d.target, []);
    if table(d.target, event).Some? {
      var (next, effects) := table(d.target, event).value;
      EnterClean(m, event, next, effects);
    }
  }

  lemma StepClean<S>(table: Table<S>, m: Machine<S>, event: Event)
    requires Clean(m)
    ensures Clean(Apply(table, m, event).1)
  {
    hide Enter, Settle, Clean, OutcomeError;
    if m.deferred.Some? {
      SettleClean(table, m, m.deferred.value, event);
      EnterClean(m, event, m.deferred.value.target, m.deferred.value.effects);
    } else if m.state.At? && table(m.state.state, event).Some? {
      var (next, effects) := table(m.state.state, event).value;
      EnterClean(m, event, next, effects);
    }
  }

  ghost predicate CleanWorld(w: World) {
    WorldInv(w) && Clean(w.machine)
  }

  lemma StepCleanWorld(w: World, op: WorldOp)
    requires CleanWorld(w) && SoleDriver(w, op)
    ensures CleanWorld(Step(w, op))
  {
    StepKeepsWorld(w, op);
    if op.MachineEvent? || op.Acknowledge? { StepClean(BytesTable, w.machine, op.event); }
    hide Apply, Credit.Advance, Credit.ValidateNextPosition, VerifyBroker, PositionMatchesEffect, WorldInv, BytesTable,
    Credit.Step;
  }

  lemma {:induction false} RunCleanWorld(w: World, ops: seq<WorldOp>)
    requires CleanWorld(w) && SoleDriverThroughout(w, ops)
    ensures CleanWorld(ByteLifecycles.Run(w, ops))
    decreases |ops|
  {
    hide Step, SoleDriver, CleanWorld;
    if ops != [] {
      StepCleanWorld(w, ops[0]);
      RunCleanWorld(Step(w, ops[0]), ops[1..]);
    }
  }

  // ---------------------------------------------------------------------------
  // The reply to an acknowledgement

  /** Only the component that belongs to the effect moves, and it grows; synchronizing makes all three equal. */
  predicate Moves(effect: EffectIntent, from: Credit.Position, to: Credit.Position) {
    || (effect.AcceptBoundedBytes? && to == from.(received := to.received) && to.received > from.received)
    || (effect.ValidateAndWrite? && to == from.(written := to.written) && to.written > from.written)
    || (effect.SynchronizeData? && to == from.(durable := to.durable) && to.durable > from.durable
        && to == Credit.Position(to.durable, to.durable, to.durable))
  }

  /** The phase that acknowledging a byte effect reaches. */
  function PhaseAfter(effect: EffectIntent): Phases
    requires effect.AcceptBoundedBytes? || effect.ValidateAndWrite? || effect.SynchronizeData?
  {
    if effect.AcceptBoundedBytes? then Received else if effect.ValidateAndWrite? then Written else Durable
  }

  lemma MovesIsMatch(effect: EffectIntent, from: Credit.Position, to: Credit.Position)
    ensures PositionMatchesEffect(from, to, effect) <==> Moves(effect, from, to)
  {
  }

  /** A pending byte effect is the whole of its batch. */
  lemma ByteEffectIsAlone(m: Machine<Phases>, token: Token)
    requires MachineOk(m) && Clean(m) && token in m.pending && IsByteEffect(token.effect)
    ensures m.state.EffectPending? && m.deferred.Some? && !m.deferred.value.hasUnsuccessfulOutcome
    ensures m.pending == [token] && m.deferred.value.effects == [token.effect]
    ensures m.deferred.value.target == match token.effect
                                       case AcceptBoundedBytes => Received
                                       case ValidateAndWrite => Writing
                                       case _ => Synchronizing
  {
    PendingEffect(m, token);
    var target := m.deferred.value.target;
    assert Batch(target) == [token.effect];
    assert |m.pending| == 1;
  }

  lemma ByteAckApplies(m: Machine<Phases>, token: Token)
    requires MachineOk(m) && Clean(m) && token in m.pending && IsByteEffect(token.effect) && |m.trace| < m.traceLimit
    ensures var (r, m') := Apply(BytesTable, m, EffectAcknowledged(token));
            && r.Ok? && m'.state == At(PhaseAfter(token.effect)) && m'.deferred.None?
            && |m'.trace| == |m.trace| + 1 && m'.nextGeneration == m.nextGeneration
            && m'.instanceId == m.instanceId && m'.traceLimit == m.traceLimit
  {
    ByteEffectIsAlone(m, token);
    assert Remove([token], token) == [];
    hide MachineOk, Clean, Remove, Tokens;
  }

  lemma ByteAckRefused(m: Machine<Phases>, token: Token)
    requires MachineOk(m) && !(token in m.pending && |m.trace| < m.traceLimit)
    ensures var r := Apply(BytesTable, m, EffectAcknowledged(token)).0;
            r == Err(if |m.trace| >= m.traceLimit then TraceLimitReached(m.traceLimit)
                     else if m.state.EffectPending? then UnexpectedAcknowledgement(token, m.pending)
                     else InvalidTransition(EffectAcknowledged(token)))
  {
    hide Batch, PendingOk, Enter;
  }

  /**
   The complete reply to an acknowledgement, in numbers. Only a byte effect, only with the
   bound broker or as the first; only the component of the effect moves, and it grows; nothing
   gets ahead of what was consumed, or of what was received; and only while that very token is
   pending and the trace has room. Then, and only then, machine and position move together.
   */
  lemma AcknowledgementIsExact(w: World, broker: nat, event: Event, next: Credit.Position)
    requires CleanWorld(w) && broker in w.brokers
    ensures var (r, w') := AcknowledgeBytes(w, broker, event, next);
            var l := w.brokers[broker];
            var m := w.machine;
            if !event.EffectAcknowledged? then r == Err(TransitionFailed(InvalidTransition(event)))
            else
              var effect := event.token.effect;
              if !effect.AcceptBoundedBytes? && !effect.ValidateAndWrite? && !effect.SynchronizeData? then
                r == Err(UnsupportedEffect(effect))
              else if w.bound.Some? && w.bound != Some(broker) then
                r == Err(CreditFailed(Credit.AcknowledgementBrokerMismatch))
              else if !Moves(effect, l.position, next) then r == Err(PositionDoesNotMatchEffect(effect))
              else if next.received > Credit.ConsumedFor(l, Credit.HttpReceive) then
                r == Err(CreditFailed(Credit.ReceivedAheadOfConsumed))
              else if next.written > Credit.ConsumedFor(l, Credit.Writer) then
                r == Err(CreditFailed(Credit.WrittenAheadOfConsumed))
              else if next.written > next.received then r == Err(CreditFailed(Credit.WrittenAheadOfReceived))
              else if |m.trace| >= m.traceLimit then r == Err(TransitionFailed(TraceLimitReached(m.traceLimit)))
              else if event.token !in m.pending then
                r == Err(TransitionFailed(
                  if m.state.EffectPending? then UnexpectedAcknowledgement(event.token, m.pending)
                  else InvalidTransition(event)))
              else
                && r == Ok(())
                && w'.machine.state == At(PhaseAfter(effect)) && |w'.machine.trace| == |m.trace| + 1
                && w'.brokers == w.brokers[broker := l.(position := next)] && w'.bound == Some(broker)
  {
    AcknowledgementMovesBoth(w, broker, event, next);
    var l := w.brokers[broker];
    Credit.PositionWithin(l);
    OwnPositionIsValid(l);
    if w.bound.Some? { OwnPositionIsValid(w.brokers[w.bound.value]); }
    if event.EffectAcknowledged? && IsByteEffect(event.token.effect) {
      MovesIsMatch(event.token.effect, l.position, next);
      hide MachineOk, Apply, Credit.Inv, BytesTable, PositionMatchesEffect, Clean, Proven;
      if event.token in w.machine.pending && |w.machine.trace| < w.machine.traceLimit {
        ByteAckApplies(w.machine, event.token);
      } else {
        ByteAckRefused(w.machine, event.token);
      }
    }
  }

  // ---------------------------------------------------------------------------
  // The durable phase can be reached

  /** The machine rests at a phase, with so many records and generations left, driven with this broker or none yet. */
  ghost predicate Rests(w: World, broker: nat, phase: Phases, records: nat, batches: nat) {
    && CleanWorld(w) && broker in w.brokers && (w.bound.None? || w.bound == Some(broker))
    && w.machine.state == At(phase) && w.machine.deferred.None?
    && |w.machine.trace| + records <= w.machine.traceLimit && w.machine.nextGeneration + batches <= U64_MAX
  }

  /** One request of the lifecycle and the acknowledgement of the byte effect it asks for. */
  function Exchange(w: World, broker: nat, request: Event, effect: EffectIntent, next: Credit.Position): seq<WorldOp> {
    [MachineEvent(request),
     WorldOp.Acknowledge(
       broker, EffectAcknowledged(Token(w.machine.instanceId, effect, w.machine.nextGeneration)), next)]
  }

  lemma RequestIssues(w: World, broker: nat, phase: Phases, request: Event, target: Phases, effect: EffectIntent,
                      records: nat, batches: nat)
    requires Rests(w, broker, phase, records, batches) && records >= 1 && batches >= 1
    requires !IsOutcome(request) && BytesTable(phase, request) == Some((target, [effect]))
    ensures var (r, w') := ApplyEvent(w, request);
            && r.Ok? && CleanWorld(w') && w'.brokers == w.brokers && w'.bound == w.bound
            && Token(w.machine.instanceId, effect, w.machine.nextGeneration) in w'.machine.pending
            && |w'.machine.trace| == |w.machine.trace| + 1 && w'.machine.nextGeneration == w.machine.nextGeneration + 1
            && w'.machine.instanceId == w.machine.instanceId && w'.machine.traceLimit == w.machine.traceLimit
  {
    EventKeepsWorld(w, request);
    StepClean(BytesTable, w.machine, request);
    var token := Token(w.machine.instanceId, effect, w.machine.nextGeneration);
    assert Tokens(w.machine.instanceId, w.machine.nextGeneration, [effect]) == [token];
    hide WorldInv, Clean, BytesTable, Tokens, Settle, Retry;
  }

  /** A position that an effect may acknowledge: its move, covered by what was consumed. */
  predicate Covered(l: Credit.Ledger, effect: EffectIntent, next: Credit.Position) {
    && Moves(effect, l.position, next) && next.written <= next.received
    && next.received <= Credit.ConsumedFor(l, Credit.HttpReceive)
    && next.written <= Credit.ConsumedFor(l, Credit.Writer)
  }

  /** Acknowledging a pending byte effect with a covered position reaches its phase. */
  lemma AckReaches(w: World, broker: nat, token: Token, next: Credit.Position)
    requires CleanWorld(w) && broker in w.brokers && (w.bound.None? || w.bound == Some(broker))
    requires token in w.machine.pending && IsByteEffect(token.effect) && |w.machine.trace| < w.machine.traceLimit
    requires Covered(w.brokers[broker], token.effect, next)
    ensures var w' := AcknowledgeBytes(w, broker, EffectAcknowledged(token), next).1;
            && CleanWorld(w') && w'.machine.state == At(PhaseAfter(token.effect)) && w'.machine.deferred.None?
            && w'.bound == Some(broker)
            && w'.brokers == w.brokers[broker := w.brokers[broker].(position := next)]
            && |w'.machine.trace| == |w.machine.trace| + 1 && w'.machine.nextGeneration == w.machine.nextGeneration
            && w'.machine.instanceId == w.machine.instanceId && w'.machine.traceLimit == w.machine.traceLimit
  {
    hide AcknowledgeBytes, Clean, BytesTable, Apply, Moves, Credit.ConsumedFor, MachineOk, BrokersOk, Proven;
    var event := EffectAcknowledged(token);
    AcknowledgementIsExact(w, broker, event, next);
    AcknowledgementMovesBoth(w, broker, event, next);
    ByteAckApplies(w.machine, token);
    StepClean(BytesTable, w.machine, event);
  }

  /** The exchange is carried out: the phase is reached together with the position. */
  lemma ExchangeReaches(w: World, broker: nat, phase: Phases, request: Event, target: Phases, effect: EffectIntent,
                        next: Credit.Position, records: nat, batches: nat)
    requires Rests(w, broker, phase, records, batches) && records >= 2 && batches >= 1
    requires !IsOutcome(request) && BytesTable(phase, request) == Some((target, [effect]))
    requires IsByteEffect(effect) && Covered(w.brokers[broker], effect, next)
    ensures var w' := ByteLifecycles.Run(w, Exchange(w, broker, request, effect, next));
            && Rests(w', broker, PhaseAfter(effect), records - 2, batches - 1)
            && w'.brokers == w.brokers[broker := w.brokers[broker].(position := next)]
            && w'.machine.instanceId == w.machine.instanceId
            && w'.machine.nextGeneration == w.machine.nextGeneration + 1
  {
    hide ApplyEvent, AcknowledgeBytes, CleanWorld, BytesTable, Covered, ByteLifecycles.Run;
    RequestIssues(w, broker, phase, request, target, effect, records, batches);
    var w1 := ApplyEvent(w, request).1;
    var token := Token(w.machine.instanceId, effect, w.machine.nextGeneration);
    AckReaches(w1, broker, token, next);
    TwoOps(w, MachineEvent(request), WorldOp.Acknowledge(broker, EffectAcknowledged(token), next));
  }

  lemma TwoOps(w: World, first: WorldOp, second: WorldOp)
    ensures ByteLifecycles.Run(w, [first, second]) == ByteLifecycles.Step(ByteLifecycles.Step(w, first), second)
  {
    hide ByteLifecycles.Step;
    var w1 := ByteLifecycles.Step(w, first);
    assert [first, second][1..] == [second] && [second][1..] == [];
    assert ByteLifecycles.Run(w1, [second]) == ByteLifecycles.Step(w1, second);
  }

  /** The machine rests at a phase, its broker stands at a position and has these two tallies. */
  ghost predicate Stands(w: World, broker: nat, phase: Phases, records: nat, batches: nat, p: Credit.Position,
                         received: nat, written: nat)
  {
    && Rests(w, broker, phase, records, batches)
    && w.brokers[broker].position == p
    && Credit.ConsumedFor(w.brokers[broker], Credit.HttpReceive) == received
    && Credit.ConsumedFor(w.brokers[broker], Credit.Writer) == written
  }

  lemma ExchangeStands(w: World, broker: nat, phase: Phases, request: Event, target: Phases, effect: EffectIntent,
                       p: Credit.Position, next: Credit.Position, records: nat, batches: nat, received: nat,
                       written: nat)
    requires Stands(w, broker, phase, records, batches, p, received, written) && records >= 2 && batches >= 1
    requires !IsOutcome(request) && BytesTable(phase, request) == Some((target, [effect])) && IsByteEffect(effect)
    requires Moves(effect, p, next) && next.written <= next.received <= received && next.written <= written
    ensures Stands(ByteLifecycles.Run(w, Exchange(w, broker, request, effect, next)), broker, PhaseAfter(effect),
                   records - 2, batches - 1, next, received, written)
  {
    hide ByteLifecycles.Run, Rests, Exchange, BytesTable, Moves;
    assert broker in w.brokers by { RestedBound(w, broker, phase, records, batches); }
    ExchangeReaches(w, broker, phase, request, target, effect, next, records, batches);
  }

  lemma RequestsOfPhases()
    ensures BytesTable(Empty, Receive) == Some((Received, [AcceptBoundedBytes]))
    ensures BytesTable(Received, Receive) == Some((Received, [AcceptBoundedBytes]))
    ensures BytesTable(Received, Validate) == Some((Writing, [ValidateAndWrite]))
    ensures BytesTable(Written, PersistDurably) == Some((Synchronizing, [SynchronizeData]))
  {
  }

  /** The three exchanges of a full receive, write and synchronize of `n` bytes. */
  function AfterReceive(w: World, broker: nat, p: Credit.Position, n: nat): World {
    ByteLifecycles.Run(w, Exchange(w, broker, Receive, AcceptBoundedBytes, p.(received := n)))
  }

  function AfterWrite(w: World, broker: nat, p: Credit.Position, n: nat): World {
    ByteLifecycles.Run(w, Exchange(w, broker, Validate, ValidateAndWrite, p.(received := n, written := n)))
  }

  function AfterSynchronize(w: World, broker: nat, n: nat): World {
    ByteLifecycles.Run(w, Exchange(w, broker, PersistDurably, SynchronizeData, Credit.Position(n, n, n)))
  }

  /**
   From an empty or a received machine that may use this broker: if more bytes than were ever
   received have been consumed by the receiving and by the writing stage, three exchanges reach
   the durable phase, with all three positions there.
   */
  lemma DurableIsReached(w: World, broker: nat, phase: Phases, p: Credit.Position, received: nat, written: nat, n: nat)
    requires Stands(w, broker, phase, 6, 3, p, received, written) && (phase.Empty? || phase.Received?)
    requires p.received < n <= received && n <= written
    ensures var w' := AfterSynchronize(AfterWrite(AfterReceive(w, broker, p, n), broker, p, n), broker, n);
            && w'.machine.state == At(Durable) && w'.bound == Some(broker)
            && broker in w'.brokers && w'.brokers[broker].position == Credit.Position(n, n, n)
  {
    hide Stands, AfterReceive, AfterWrite, AfterSynchronize;
    StandsOrdered(w, broker, phase, 6, 3, p, received, written);
    ReceiveStands(w, broker, phase, p, received, written, n);
    var w1 := AfterReceive(w, broker, p, n);
    WriteStands(w1, broker, p, received, written, n);
    var w2 := AfterWrite(w1, broker, p, n);
    SynchronizeStands(w2, broker, p, received, written, n);
    StandsDurable(AfterSynchronize(w2, broker, n), broker, Credit.Position(n, n, n), received, written);
  }

  lemma ReceiveStands(w: World, broker: nat, phase: Phases, p: Credit.Position, received: nat, written: nat, n: nat)
    requires Stands(w, broker, phase, 6, 3, p, received, written) && (phase.Empty? || phase.Received?)
    requires p.written <= p.received < n <= received && p.written <= written
    ensures Stands(AfterReceive(w, broker, p, n), broker, Received, 4, 2, p.(received := n), received, written)
  {
    hide ByteLifecycles.Run, Stands, Exchange, BytesTable;
    RequestsOfPhases();
    ExchangeStands(w, broker, phase, Receive, Received, AcceptBoundedBytes, p, p.(received := n), 6, 3, received,
                   written);
  }

  lemma WriteStands(w: World, broker: nat, p: Credit.Position, received: nat, written: nat, n: nat)
    requires Stands(w, broker, Received, 4, 2, p.(received := n), received, written)
    requires p.written < n <= received && n <= written
    ensures Stands(AfterWrite(w, broker, p, n), broker, Written, 2, 1, p.(received := n, written := n), received,
                   written)
  {
    hide ByteLifecycles.Run, Stands, Exchange, BytesTable;
    RequestsOfPhases();
    ExchangeStands(w, broker, Received, Validate, Writing, ValidateAndWrite, p.(received := n),
                   p.(received := n, written := n), 4, 2, received, written);
  }

  lemma SynchronizeStands(w: World, broker: nat, p: Credit.Position, received: nat, written: nat, n: nat)
    requires Stands(w, broker, Written, 2, 1, p.(received := n, written := n), received, written)
    requires p.durable < n <= received && n <= written
    ensures Stands(AfterSynchronize(w, broker, n), broker, Durable, 0, 0, Credit.Position(n, n, n), received, written)
  {
    hide ByteLifecycles.Run, Stands, Exchange, BytesTable;
    RequestsOfPhases();
    ExchangeStands(w, broker, Written, PersistDurably, Synchronizing, SynchronizeData,
                   p.(received := n, written := n), Credit.Position(n, n, n), 2, 1, received, written);
  }

  lemma StandsOrdered(w: World, broker: nat, phase: Phases, records: nat, batches: nat, p: Credit.Position,
                      received: nat, written: nat)
    requires Stands(w, broker, phase, records, batches, p, received, written)
    ensures p.durable <= p.written <= p.received
  {
    RestedBound(w, broker, phase, records, batches);
    Credit.PositionWithin(w.brokers[broker]);
  }

  lemma StandsDurable(w: World, broker: nat, p: Credit.Position, received: nat, written: nat)
    requires Stands(w, broker, Durable, 0, 0, p, received, written)
    ensures w.machine.state == At(Durable) && w.bound == Some(broker)
    ensures broker in w.brokers && w.brokers[broker].position == p
  {
    RestedBound(w, broker, Durable, 0, 0);
  }

  /** Resting at a substantiated phase, the machine has bound the broker it was driven with. */
  lemma RestedBound(w: World, broker: nat, phase: Phases, records: nat, batches: nat)
    requires Rests(w, broker, phase, records, batches)
    ensures broker in w.brokers && Credit.Inv(w.brokers[broker])
    ensures Substantiated(phase) ==> w.bound == Some(broker)
  {
    hide MachineOk, Clean, Credit.Inv;
  }

  // ---------------------------------------------------------------------------
  // From a fresh ledger

  /** Claims, consumes and releases `n` bytes of one stage. */
  function PassThrough(l: Credit.Ledger, owner: nat, stage: Credit.Stage, n: nat): Credit.Ledger {
    Credit.Run(l, [Credit.ClaimOp(owner, stage, n), Credit.ConsumeOp(l.nextClaim, Credit.Single, n),
                   Credit.ReleaseOp(l.nextClaim)])
  }

  /** `n` bytes of a stage fit the owner and the stage on their own. */
  predicate Affordable(contract: Credit.Contract, stage: Credit.Stage, n: nat) {
    var policy := Credit.FindPolicy(contract.stagePolicies, stage);
    0 < n <= contract.maxOwnerBytes && policy.Some? && n <= policy.value.maxBytes
  }

  lemma IdleLedgerAdmits(l: Credit.Ledger, owner: nat, stage: Credit.Stage, n: nat)
    requires Credit.Inv(l) && l.active == map[] && Affordable(l.contract, stage, n)
    ensures Credit.CheckAdmission(l, owner, stage, 1, n, 0, 0).Ok? && l.inUse == 0
  {
    forall w: Credit.Weight ensures Credit.Sum(l, w) == 0 { Credit.TotalNothing(l.nextClaim, w); }
    Credit.AdmissionMeansFits(l, owner, stage, n, 0, 0);
    Credit.StageHasPolicy(l.contract, stage);
    Credit.InUseIsSum(l);
    assert Credit.ContractOk(l.contract);
    hide Credit.Sum, Credit.FindPolicy, Credit.Inv;
  }

  lemma ThreeOps(l: Credit.Ledger, a: Credit.Op, b: Credit.Op, c: Credit.Op)
    ensures Credit.Run(l, [a, b, c]) == Credit.Step(Credit.Step(Credit.Step(l, a), b), c)
  {
    hide Credit.Step;
    var (l1, l2) := (Credit.Step(l, a), Credit.Step(Credit.Step(l, a), b));
    assert [a, b, c][1..] == [b, c] && [b, c][1..] == [c] && [c][1..] == [];
    assert Credit.Run(l1, [b, c]) == Credit.Run(l2, [c]) && Credit.Run(l2, [c]) == Credit.Step(l2, c);
  }

  function Holding(owner: nat, stage: Credit.Stage, n: nat, consumed: nat): Credit.Claim {
    map[Credit.Single := Credit.ComponentClaim(owner, stage, n, consumed)]
  }

  lemma ClaimsOnIdle(l: Credit.Ledger, owner: nat, stage: Credit.Stage, n: nat)
    requires Credit.Inv(l) && l.active == map[] && Affordable(l.contract, stage, n) && l.nextClaim < U64_MAX
    ensures n <= U64_MAX
    ensures Credit.Step(l, Credit.ClaimOp(owner, stage, n))
         == l.(active := map[l.nextClaim := Holding(owner, stage, n, 0)], inUse := n, nextClaim := l.nextClaim + 1)
  {
    IdleLedgerAdmits(l, owner, stage, n);
    assert Credit.ContractOk(l.contract) && l.contract.capacityBytes <= U64_MAX;
    assert l.active[l.nextClaim := Holding(owner, stage, n, 0)] == map[l.nextClaim := Holding(owner, stage, n, 0)];
    hide Credit.Inv, Credit.CheckAdmission, Credit.FindPolicy;
  }

  lemma ConsumesAll(l: Credit.Ledger, id: nat, owner: nat, stage: Credit.Stage, n: nat)
    requires l.active == map[id := Holding(owner, stage, n, 0)] && Credit.ConsumedFor(l, stage) + n <= U64_MAX
    ensures Credit.Step(l, Credit.ConsumeOp(id, Credit.Single, n))
         == l.(active := map[id := Holding(owner, stage, n, n)],
               consumed := l.consumed[stage := Credit.ConsumedFor(l, stage) + n])
  {
    hide Credit.ConsumedFor;
    assert Holding(owner, stage, n, 0)[Credit.Single := Credit.ComponentClaim(owner, stage, n, n)]
        == Holding(owner, stage, n, n);
    assert l.active[id := Holding(owner, stage, n, n)] == map[id := Holding(owner, stage, n, n)];
  }

  lemma ReleasesAll(l: Credit.Ledger, id: nat, owner: nat, stage: Credit.Stage, n: nat)
    requires l.active == map[id := Holding(owner, stage, n, n)] && l.inUse == n <= U64_MAX
    ensures Credit.Step(l, Credit.ReleaseOp(id)) == l.(active := map[], inUse := 0)
  {
    assert Credit.ClaimTotal(l.active[id], Credit.Bytes()) == n;
    assert l.active - {id} == map[];
  }

  /** On an idle ledger this leaves nothing behind but the stage's tally and a used-up number. */
  lemma PassThroughIs(l: Credit.Ledger, owner: nat, stage: Credit.Stage, n: nat)
    requires Credit.Inv(l) && l.active == map[] && Affordable(l.contract, stage, n)
    requires l.nextClaim < U64_MAX && Credit.ConsumedFor(l, stage) + n <= U64_MAX
    ensures PassThrough(l, owner, stage, n)
         == l.(inUse := 0, nextClaim := l.nextClaim + 1,
               consumed := l.consumed[stage := Credit.ConsumedFor(l, stage) + n])
  {
    var id := l.nextClaim;
    var (a, b, c) := (Credit.ClaimOp(owner, stage, n), Credit.ConsumeOp(id, Credit.Single, n), Credit.ReleaseOp(id));
    hide Credit.Inv, Credit.Step, Credit.Run, Affordable, Holding;
    ThreeOps(l, a, b, c);
    ClaimsOnIdle(l, owner, stage, n);
    ConsumesAll(Credit.Step(l, a), id, owner, stage, n);
    ReleasesAll(Credit.Step(Credit.Step(l, a), b), id, owner, stage, n);
  }

  lemma PassThroughCounts(l: Credit.Ledger, owner: nat, stage: Credit.Stage, n: nat)
    requires Credit.Inv(l) && l.active == map[] && Affordable(l.contract, stage, n)
    requires l.nextClaim < U64_MAX && Credit.ConsumedFor(l, stage) + n <= U64_MAX
    ensures var l' := PassThrough(l, owner, stage, n);
            && Credit.Inv(l') && l'.active == map[] && l'.nextClaim == l.nextClaim + 1
            && l'.position == l.position && l'.contract == l.contract
            && l'.consumed == l.consumed[stage := Credit.ConsumedFor(l, stage) + n]
  {
    hide Credit.Inv, Credit.Run, Affordable, Credit.VerifyPasses;
    PassThroughIs(l, owner, stage, n);
    Credit.ReachableIsBounded(l, [Credit.ClaimOp(owner, stage, n), Credit.ConsumeOp(l.nextClaim, Credit.Single, n),
                                  Credit.ReleaseOp(l.nextClaim)]);
  }

  /** The ledger of a fresh broker after `n` bytes went through the receiving and the writing stage. */
  function Warmed(contract: Credit.Contract, owner: nat, n: nat): Credit.Ledger
    requires Credit.ContractOk(contract)
  {
    PassThrough(PassThrough(Credit.FromContract(contract).value, owner, Credit.HttpReceive, n), owner, Credit.Writer, n)
  }

  /**
   For every valid contract under which `n` bytes fit the receiving and the writing stage, a
   fresh machine and a fresh broker reach the durable phase with all `n` bytes durable.
   */
  lemma DurableFromFresh(contract: Credit.Contract, owner: nat, n: nat, instanceId: nat, traceLimit: nat, broker: nat)
    requires Credit.ContractOk(contract) && contract.capacityBytes <= U64_MAX && contract.maxClaimItems <= U64_MAX
    requires Affordable(contract, Credit.HttpReceive, n) && Affordable(contract, Credit.Writer, n) && traceLimit >= 6
    ensures var zero := Credit.Position(0, 0, 0);
            var w := World(New(Empty, instanceId, traceLimit), false, None, map[broker := Warmed(contract, owner, n)]);
            var w' := AfterSynchronize(AfterWrite(AfterReceive(w, broker, zero, n), broker, zero, n), broker, n);
            && w'.machine.state == At(Durable)
            && broker in w'.brokers && w'.brokers[broker].position == Credit.Position(n, n, n)
  {
    Credit.FreshIsBounded(contract);
    var l0 := Credit.FromContract(contract).value;
    assert n <= U64_MAX;
    hide Credit.Inv, PassThrough, Credit.ContractOk, Affordable, AfterReceive, AfterWrite, AfterSynchronize;
    PassThroughCounts(l0, owner, Credit.HttpReceive, n);
    var l1 := PassThrough(l0, owner, Credit.HttpReceive, n);
    PassThroughCounts(l1, owner, Credit.Writer, n);
    var l := PassThrough(l1, owner, Credit.Writer, n);
    var w := World(New(Empty, instanceId, traceLimit), false, None, map[broker := l]);
    FreshWorldInv(instanceId, traceLimit, map[broker := l]);
    assert Stands(w, broker, Empty, 6, 3, Credit.Position(0, 0, 0), n, n) by { hide WorldInv; }
    DurableIsReached(w, broker, Empty, Credit.Position(0, 0, 0), n, n, n);
  }

  // ---------------------------------------------------------------------------
  // The moves of the byte table

  const BYTE_MOVES: seq<List.Move<Phases>> := [
    List.Move([Empty, Received], Receive, Received, [AcceptBoundedBytes], []),
    List.Move([Received], Validate, Written, [ValidateAndWrite], []),
    List.Move([Written], PersistDurably, Durable, [SynchronizeData], []),
    List.Move([Empty, Received, Written], Cancel, Stopped, [ReleaseResources], []),
    List.Move([Received, Written], Fail, Failed, [PreserveDiagnostics, ReleaseResources], []),
    List.Move([Failed, Stopped], Restart, Empty, [], [])]

  /**
   The engine on the byte table, from rest to rest: it never rests while writing or
   synchronizing, so the cancellations and failures the table grants there are never taken,
   and a durable machine accepts nothing more.
   */
  lemma BytesMoveAsListed()
    ensures List.Behaves(BytesTable, Empty, BYTE_MOVES)
  {
    hide List.Behaves, List.Taken, List.Exhaustive, List.Shallow, List.Ordered;
    assert List.Lists(BytesTable, Empty, BYTE_MOVES) by {
      TableIsWellFormed();
      hide WellFormed, Quiet;
      BytesAreShallow();
      ByteMovesAreTaken();
      ByteMovesAreAll();
      ByteMovesAreOrdered();
    }
    hide List.Lists;
    List.ListsBehave(BytesTable, Empty, BYTE_MOVES);
  }

  lemma BytesAreShallow()
    ensures List.Shallow(BytesTable)
  {
    TableIsWellFormed();
    hide WellFormed, Quiet;
  }

  lemma ByteMovesAreTaken()
    ensures forall i :: 0 <= i < |BYTE_MOVES| ==> List.Taken(BytesTable, BYTE_MOVES[i])
  {
    forall i | 0 <= i < |BYTE_MOVES| ensures List.Taken(BytesTable, BYTE_MOVES[i]) {
      var move := BYTE_MOVES[i];
      forall s | s in move.from ensures List.Makes(BytesTable, s, move) {
      }
    }
  }

  lemma ByteMovesAreOrdered()
    ensures List.Ordered(Empty, BYTE_MOVES)
  {
    var m := BYTE_MOVES;
    assert m[0].to == Received && m[1].to == Written && m[3].to == Stopped;
  }

  lemma ByteMovesAreAll()
    ensures List.Exhaustive(BytesTable, BYTE_MOVES)
  {
    forall s, e | Quiet(BytesTable, s) && !IsOutcome(e) && BytesTable(s, e).Some?
      ensures List.Offers(BYTE_MOVES, s, e) {
      assert BytesTable(s, List.PROBE).None?;
      var i := match e
        case Receive => 0
        case Validate => 1
        case PersistDurably => 2
        case Cancel => 3
        case Fail => 4
        case _ => 5;
      assert s in BYTE_MOVES[i].from && BYTE_MOVES[i].request == e;
    }
  }
}
