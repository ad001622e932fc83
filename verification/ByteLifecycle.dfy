/**
 The byte-durability lifecycle coupled to the credit broker: a received, written or durable
 phase is reached only together with the broker position that substantiates it.
 */
module ByteLifecycles {
  import opened Wrappers
  import opened StateMachines
  import Credit = ByteCredits

  datatype Phases = Empty | Received | Writing | Written | Synchronizing | Durable | Failed | Stopped

  type Move = Option<(Phases, seq<EffectIntent>)>

  function Batch(target: Phases): seq<EffectIntent> {
    match target
    case Received => [AcceptBoundedBytes]
    case Writing => [ValidateAndWrite]
    case Synchronizing => [SynchronizeData]
    case Stopped => [ReleaseResources]
    case Failed => [PreserveDiagnostics, ReleaseResources]
    case _ => []
  }

  function Go(next: Phases): Move {
    Some((next, Batch(next)))
  }

  function BytesTable(state: Phases, event: Event): Move {
    match event
    case Receive => if state.Empty? || state.Received? then Go(Received) else None
    case Validate => if state.Received? then Go(Writing) else None
    case PersistDurably => if state.Written? then Go(Synchronizing) else None
    case EffectAcknowledged(_) =>
      if state.Writing? then Go(Written) else if state.Synchronizing? then Go(Durable) else None
    case Cancel =>
      if state.Empty? || state.Received? || state.Writing? || state.Written? || state.Synchronizing?
      then Go(Stopped) else None
    case Fail =>
      if state.Received? || state.Writing? || state.Written? || state.Synchronizing? then Go(Failed) else None
    case Restart => if state.Failed? || state.Stopped? then Go(Empty) else None
    case _ => None
  }

  lemma RestIsQuiet(state: Phases)
    requires !state.Writing? && !state.Synchronizing?
    ensures Quiet(BytesTable, state)
  {
  }

  lemma MoveIsWellFormed(state: Phases, event: Event)
    requires BytesTable(state, event).Some?
    ensures Distinct(BytesTable(state, event).value.1)
    ensures var next := BytesTable(state, event).value.0;
            BytesTable(state, event).value.1 == [] ==> !next.Writing? && !next.Synchronizing?
  {
  }

  lemma TableIsWellFormed()
    ensures WellFormed(BytesTable) && forall s: Phases :: !s.Writing? && !s.Synchronizing? ==> Quiet(BytesTable, s)
  {
    assert forall s, t, t' :: BytesTable(s, EffectAcknowledged(t)) == BytesTable(s, EffectAcknowledged(t'));
    hide BytesTable, Quiet, Distinct;
    forall s: Phases | !s.Writing? && !s.Synchronizing? ensures Quiet(BytesTable, s) {
      RestIsQuiet(s);
    }
    forall s, e | BytesTable(s, e).Some?
      ensures Distinct(BytesTable(s, e).value.1)
      ensures BytesTable(s, e).value.1 == [] ==> Quiet(BytesTable, BytesTable(s, e).value.0)
    {
      MoveIsWellFormed(s, e);
    }
  }

  predicate IsByteEffect(effect: EffectIntent) {
    effect.AcceptBoundedBytes? || effect.ValidateAndWrite? || effect.SynchronizeData?
  }

  /** The position change that an acknowledged effect stands for. */
  predicate PositionMatchesEffect(current: Credit.Position, next: Credit.Position, effect: EffectIntent) {
    match effect
    case AcceptBoundedBytes =>
      next.received > current.received && next.written == current.written && next.durable == current.durable
    case ValidateAndWrite =>
      next.received == current.received && next.written > current.written && next.durable == current.durable
    case SynchronizeData =>
      && next.received == current.received && next.written == current.written && next.durable > current.durable
      && next.durable == next.written == next.received
    case _ => false
  }

  /** The broker position that substantiates a phase. */
  predicate PositionMatchesState(p: Credit.Position, state: Phases) {
    match state
    case Received => p.received > p.written >= p.durable
    case Written => p.received >= p.written > p.durable
    case Durable => p.durable > 0 && p.durable == p.written == p.received
    case _ => false
  }

  // ---------------------------------------------------------------------------
  // One machine and the brokers it may be pointed at

  datatype World = World(
    machine: Machine<Phases>,
    authorized: bool,
    bound: Option<nat>,
    brokers: map<nat, Credit.Ledger>)

  datatype EffectError =
    | UnsupportedEffect(effect: EffectIntent)
    | PositionDoesNotMatchEffect(effect: EffectIntent)
    | TransitionFailed(error: TransitionError)
    | CreditFailed(credit: Credit.CreditError)

  /** Ordinary events; a byte effect cannot be acknowledged this way unless just authorized. */
  function ApplyEvent(w: World, event: Event): (Result<(), TransitionError>, World) {
    if event.EffectAcknowledged? && IsByteEffect(event.token.effect) && !w.authorized then
      (Err(ByteDurabilityAcknowledgementRequired(event.token.effect)), w)
    else
      var (r, m) := Apply(BytesTable, w.machine, event);
      (r, w.(machine := m, authorized := false))
  }

  /** Only the broker bound by the first acknowledgement may substantiate later ones. */
  function VerifyBroker(w: World, broker: nat): Result<(), Credit.CreditError>
    requires broker in w.brokers
  {
    if w.bound.None? || w.bound.value !in w.brokers then Ok(())
    else
      var own := w.brokers[w.bound.value];
      var receipt := Credit.ValidateNextPosition(own, own.position);
      if receipt.Err? then receipt
      else if w.bound.value != broker then Err(Credit.AcknowledgementBrokerMismatch)
      else Credit.Advance(own, own.position).0
  }

  function AcknowledgeBytes(w: World, broker: nat, event: Event, next: Credit.Position)
    : (Result<(), EffectError>, World)
    requires broker in w.brokers
  {
    if !event.EffectAcknowledged? then (Err(TransitionFailed(InvalidTransition(event))), w)
    else if !IsByteEffect(event.token.effect) then (Err(UnsupportedEffect(event.token.effect)), w)
    else
      var identity := VerifyBroker(w, broker);
      if identity.Err? then (Err(CreditFailed(identity.error)), w)
      else if !PositionMatchesEffect(w.brokers[broker].position, next, event.token.effect) then
        (Err(PositionDoesNotMatchEffect(event.token.effect)), w)
      else
        var receipt := Credit.ValidateNextPosition(w.brokers[broker], next);
        if receipt.Err? then (Err(CreditFailed(receipt.error)), w)
        else
          var (applied, w1) := ApplyEvent(w.(authorized := true), event);
          if applied.Err? then (Err(TransitionFailed(applied.error)), w1)
          else
            var (advanced, ledger) := Credit.Advance(w1.brokers[broker], next);
            var w2 := w1.(brokers := w1.brokers[broker := ledger]);
            if advanced.Err? then (Err(CreditFailed(advanced.error)), w2)
            else (Ok(()), w2.(bound := if w2.bound.None? then Some(broker) else w2.bound))
  }

  datatype WorldOp =
    | MachineEvent(event: Event)
    | Acknowledge(broker: nat, event: Event, next: Credit.Position)
    | BrokerOp(broker: nat, op: Credit.Op)

  /** Positions of the bound broker move only through this machine; everything else is unrestricted. */
  predicate SoleDriver(w: World, op: WorldOp) {
    op.BrokerOp? && op.op.AdvanceOp? ==> w.bound != Some(op.broker)
  }

  function Step(w: World, op: WorldOp): World {
    match op
    case MachineEvent(event) => ApplyEvent(w, event).1
    case Acknowledge(broker, event, next) =>
      if broker in w.brokers then AcknowledgeBytes(w, broker, event, next).1 else w
    case BrokerOp(broker, op) =>
      if broker in w.brokers then w.(brokers := w.brokers[broker := Credit.Step(w.brokers[broker], op)]) else w
  }

  function Run(w: World, ops: seq<WorldOp>): World
    decreases |ops|
  {
    if ops == [] then w else Run(Step(w, ops[0]), ops[1..])
  }

  predicate SoleDriverThroughout(w: World, ops: seq<WorldOp>)
    decreases |ops|
  {
    ops == [] || (SoleDriver(w, ops[0]) && SoleDriverThroughout(Step(w, ops[0]), ops[1..]))
  }

  // ---------------------------------------------------------------------------
  // The coupling invariant

  predicate Substantiated(state: Phases) {
    state.Received? || state.Written? || state.Durable?
  }

  /** A deferred phase waits for exactly the batch of effects that belongs to it. */
  predicate Batched(m: Machine<Phases>) {
    m.deferred.Some? ==> m.deferred.value.effects == Batch(m.deferred.value.target)
  }

  ghost predicate MachineOk(m: Machine<Phases>) {
    Inv(BytesTable, m) && Batched(m)
  }

  ghost predicate BrokersOk(brokers: map<nat, Credit.Ledger>) {
    forall b :: b in brokers ==> Credit.Inv(brokers[b])
  }

  /** Resting at a substantiated phase, the bound broker's position proves it. */
  ghost predicate Proven(m: Machine<Phases>, bound: Option<nat>, brokers: map<nat, Credit.Ledger>) {
    m.state.At? && Substantiated(m.state.state) ==>
      bound.Some? && bound.value in brokers && PositionMatchesState(brokers[bound.value].position, m.state.state)
  }

  ghost predicate WorldInv(w: World) {
    && MachineOk(w.machine)
    && !w.authorized
    && BrokersOk(w.brokers)
    && (w.bound.Some? ==> w.bound.value in w.brokers)
    && Proven(w.machine, w.bound, w.brokers)
  }

  lemma MovesCarryBatches(state: Phases, event: Event)
    requires BytesTable(state, event).Some?
    ensures BytesTable(state, event).value.1 == Batch(BytesTable(state, event).value.0)
  {
  }

  lemma EnterKeepsBatches(m: Machine<Phases>, event: Event, next: Phases, effects: seq<EffectIntent>)
    requires Batched(m) && (effects == [] || effects == Batch(next))
    ensures Batched(Enter(m, event, next, effects).1)
  {
    hide Batch;
  }

  lemma EventKeepsBatches(m: Machine<Phases>, event: Event)
    requires Batched(m)
    ensures Batched(Apply(BytesTable, m, event).1)
  {
    hide BytesTable, Batch, Enter;
    if m.deferred.None? {
      if m.state.At? && BytesTable(m.state.state, event).Some? {
        MovesCarryBatches(m.state.state, event);
        var (next, effects) := BytesTable(m.state.state, event).value;
        EnterKeepsBatches(m, event, next, effects);
      }
    } else {
      var d := m.deferred.value;
      EnterKeepsBatches(m, event, d.target, d.effects);
      EnterKeepsBatches(m, event, d.target, []);
      if BytesTable(d.target, event).Some? {
        MovesCarryBatches(d.target, event);
        var (next, effects) := BytesTable(d.target, event).value;
        EnterKeepsBatches(m, event, next, effects);
      }
    }
  }

  lemma EventKeepsMachine(m: Machine<Phases>, event: Event)
    requires MachineOk(m)
    ensures MachineOk(Apply(BytesTable, m, event).1)
    ensures Apply(BytesTable, m, event).0.Err? ==> Apply(BytesTable, m, event).1 == m
  {
    hide BytesTable, Batch, WellFormed, Apply, Inv;
    TableIsWellFormed();
    ApplyKeeps(BytesTable, m, event);
    EventKeepsBatches(m, event);
  }

  /** What the machine waits for, and where the outcome leads. */
  lemma PendingEffect(m: Machine<Phases>, token: Token)
    requires MachineOk(m) && token in m.pending
    ensures m.deferred.Some? && m.state.EffectPending? && token.effect in Batch(m.deferred.value.target)
  {
    hide Batch;
  }

  /** The phase that acknowledging a byte effect leads to. */
  predicate LeadsTo(effect: EffectIntent, state: Phases) {
    match effect
    case AcceptBoundedBytes => state.Received?
    case ValidateAndWrite => state.Written?
    case SynchronizeData => state.Durable?
    case _ => false
  }

  /** The event is accepted and leaves the machine at rest in a substantiated phase. */
  predicate Substantiates(m: Machine<Phases>, event: Event) {
    var (r, m') := Apply(BytesTable, m, event);
    r.Ok? && m'.state.At? && Substantiated(m'.state.state)
  }

  /** A substantiated phase is entered only by acknowledging the byte effect that leads to it. */
  lemma OnlyByteEffectsSubstantiate(m: Machine<Phases>, event: Event)
    requires MachineOk(m)
    ensures Substantiates(m, event) ==>
              event.EffectAcknowledged? && LeadsTo(event.token.effect, Apply(BytesTable, m, event).1.state.state)
  {
    TableIsWellFormed();
    if m.deferred.Some? {
      SettledIntoPhase(m, event);
    } else if Substantiates(m, event) {
      AcceptedStep(BytesTable, m, event);
      SilentMovesOnlyRestart(m.state.state, event);
    }
  }

  lemma SilentMovesOnlyRestart(state: Phases, event: Event)
    requires !event.EffectAcknowledged? && BytesTable(state, event).Some? && BytesTable(state, event).value.1 == []
    ensures BytesTable(state, event).value.0 == Empty
  {
  }

  lemma SettledIntoPhase(m: Machine<Phases>, event: Event)
    requires MachineOk(m) && m.deferred.Some?
    ensures Substantiates(m, event) ==>
              event.EffectAcknowledged? && LeadsTo(event.token.effect, Apply(BytesTable, m, event).1.state.state)
  {
    if Substantiates(m, event) {
      assert m.state.EffectPending? && event.token in m.pending;
      PendingEffect(m, event.token);
    }
  }

  lemma EventKeepsWorld(w: World, event: Event)
    requires WorldInv(w)
    ensures WorldInv(ApplyEvent(w, event).1)
    ensures ApplyEvent(w, event).0.Err? ==> ApplyEvent(w, event).1 == w
  {
    EventKeepsMachine(w.machine, event);
    var (r, m) := Apply(BytesTable, w.machine, event);
    if r.Ok? && m.state.At? && Substantiated(m.state.state) {
      OnlyByteEffectsSubstantiate(w.machine, event);
    }
    hide Apply, MachineOk, BrokersOk, PositionMatchesState;
  }

  lemma OwnPositionIsValid(l: Credit.Ledger)
    requires Credit.Inv(l)
    ensures Credit.ValidateNextPosition(l, l.position).Ok?
  {
    Credit.PositionWithin(l);
  }

  lemma EffectProvesPhase(l: Credit.Ledger, next: Credit.Position, effect: EffectIntent, state: Phases)
    requires Credit.Inv(l) && PositionMatchesEffect(l.position, next, effect)
        && Credit.ValidateNextPosition(l, next).Ok?
    requires LeadsTo(effect, state)
    ensures PositionMatchesState(next, state)
  {
    Credit.PositionWithin(l);
    hide Credit.Inv;
  }

  /**
   An acknowledged byte effect advances the lifecycle and the broker position together; a
   refused one changes neither.
   */
  lemma AcknowledgementMovesBoth(w: World, broker: nat, event: Event, next: Credit.Position)
    requires WorldInv(w) && broker in w.brokers
    ensures var (r, w') := AcknowledgeBytes(w, broker, event, next);
            && WorldInv(w')
            && (r.Err? ==> w' == w)
            && (r.Ok? ==>
                  && event.EffectAcknowledged? && IsByteEffect(event.token.effect)
                  && w'.machine == Apply(BytesTable, w.machine, event).1 && Apply(BytesTable, w.machine, event).0.Ok?
                  && w'.brokers == w.brokers[broker := w.brokers[broker].(position := next)]
                  && w'.bound == Some(broker))
  {
    hide Apply, MachineOk, PositionMatchesState, PositionMatchesEffect, Credit.Inv, Credit.ValidateNextPosition;
    var (r, w') := AcknowledgeBytes(w, broker, event, next);
    EventKeepsMachine(w.machine, event);
    OwnPositionIsValid(w.brokers[broker]);
    if w.bound.Some? { OwnPositionIsValid(w.brokers[w.bound.value]); }
    if r.Ok? {
      var l := w.brokers[broker];
      Credit.AdvanceKeeps(l, next);
      var m := w'.machine;
      if m.state.At? && Substantiated(m.state.state) {
        OnlyByteEffectsSubstantiate(w.machine, event);
        EffectProvesPhase(l, next, event.token.effect, m.state.state);
      }
    }
  }

  lemma NonAdvanceKeepsPosition(l: Credit.Ledger, op: Credit.Op)
    requires !op.AdvanceOp?
    ensures Credit.Step(l, op).position == l.position
  {
    hide Credit.CheckAdmission, Credit.CheckOwnerTransfer, Credit.CheckSameStage, Credit.ClaimTotal;
  }

  lemma StepKeepsWorld(w: World, op: WorldOp)
    requires WorldInv(w) && SoleDriver(w, op)
    ensures WorldInv(Step(w, op))
  {
    hide ApplyEvent, AcknowledgeBytes, MachineOk, Credit.Inv, Credit.Step, PositionMatchesState;
    match op
    case MachineEvent(event) => EventKeepsWorld(w, event);
    case Acknowledge(broker, event, next) =>
      if broker in w.brokers { AcknowledgementMovesBoth(w, broker, event, next); }
    case BrokerOp(broker, op) =>
      if broker in w.brokers {
        Credit.StepKeeps(w.brokers[broker], op);
        if !op.AdvanceOp? { NonAdvanceKeepsPosition(w.brokers[broker], op); }
      }
  }

  /**
   For a machine that alone drives its broker, over every run: whenever it rests at a
   received, written or durable phase, the bound broker's position substantiates it. At the
   durable phase everything received has been written and is durable.
   */
  lemma {:induction false} PhasesAreSubstantiated(w: World, ops: seq<WorldOp>)
    requires WorldInv(w) && SoleDriverThroughout(w, ops)
    ensures WorldInv(Run(w, ops))
    ensures var end := Run(w, ops);
            end.machine.state.At? && Substantiated(end.machine.state.state) ==>
              && end.bound.Some? && end.bound.value in end.brokers
              && var p := end.brokers[end.bound.value].position;
              && PositionMatchesState(p, end.machine.state.state)
              && (end.machine.state.state.Durable? ==> p.durable == p.written == p.received > 0)
    decreases |ops|
  {
    hide Step, SoleDriver;
    if ops != [] {
      StepKeepsWorld(w, ops[0]);
      hide WorldInv;
      PhasesAreSubstantiated(Step(w, ops[0]), ops[1..]);
    }
  }

  lemma FreshWorldInv(instanceId: nat, traceLimit: nat, brokers: map<nat, Credit.Ledger>)
    requires BrokersOk(brokers)
    ensures WorldInv(World(New(Empty, instanceId, traceLimit), false, None, brokers))
  {
    TableIsWellFormed();
    NewIsCorrelated(BytesTable, Empty, instanceId, traceLimit);
  }

  // ---------------------------------------------------------------------------
  // Restoration

  datatype RestorationError =
    | StateIsNotDurable(state: Phases)
    | InvalidRestorationGeneration
    | PositionDoesNotMatchState(state: Phases, position: Credit.Position)

  function Restore(state: Phases, broker: nat, brokers: map<nat, Credit.Ledger>, instanceId: nat, traceLimit: nat,
                   nextGeneration: nat): Result<World, RestorationError>
    requires broker in brokers
  {
    if !Substantiated(state) then Err(StateIsNotDurable(state))
    else if nextGeneration == 0 then Err(InvalidRestorationGeneration)
    else if !PositionMatchesState(brokers[broker].position, state) then
      Err(PositionDoesNotMatchState(state, brokers[broker].position))
    else
      Ok(World(Machine(instanceId, traceLimit, At(state), [], [], None, nextGeneration), false, Some(broker), brokers))
  }

  /** A restored machine starts out substantiated, so everything above holds for it too. */
  lemma RestoredIsSubstantiated(state: Phases, broker: nat, brokers: map<nat, Credit.Ledger>, instanceId: nat,
                                traceLimit: nat, nextGeneration: nat)
    requires BrokersOk(brokers) && broker in brokers && nextGeneration <= U64_MAX
    ensures var r := Restore(state, broker, brokers, instanceId, traceLimit, nextGeneration);
            && (r.Ok? ==> WorldInv(r.value))
            && (r.Ok? <==> nextGeneration > 0 && PositionMatchesState(brokers[broker].position, state))
  {
    TableIsWellFormed();
  }
}
