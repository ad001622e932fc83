/**
 The correlated-effect engine against its trace alone.

 The engine caches what is outstanding, what a batch leads to and whether one of its effects
 went wrong. Here the reply to an event is defined from the records of the trace only, and
 the engine is proved to give exactly that reply in every run.
 */
module TraceEngines {
  import opened Wrappers
  import opened StateMachines

  // ---------------------------------------------------------------------------
  // What a trace says

  /** Where a trace ends. */
  function Where<S>(initial: S, trace: seq<Record<S>>): Phase<S> {
    if trace == [] then At(initial) else trace[|trace| - 1].next
  }

  /** The effects of the batch requested last. */
  function LatestBatch<S>(trace: seq<Record<S>>): seq<EffectIntent> {
    if trace == [] then []
    else if trace[|trace| - 1].effects != [] then trace[|trace| - 1].effects
    else LatestBatch(trace[..|trace| - 1])
  }

  /** The state that the batch requested last leads to. */
  function Aim<S>(table: Table<S>, trace: seq<Record<S>>): Option<S> {
    if trace == [] then None
    else
      var (front, last) := (trace[..|trace| - 1], trace[|trace| - 1]);
      if last.effects == [] then Aim(table, front)
      else
        match last.previous
        case At(state) => TargetOf(table(state, last.event))
        case EffectPending =>
          if Aim(table, front).Some? then TargetOf(table(Aim(table, front).value, last.event)) else None
        case EffectRecovery => Aim(table, front)
  }

  function TargetOf<S>(move: Option<(S, seq<EffectIntent>)>): Option<S> {
    if move.Some? then Some(move.value.0) else None
  }

  /** Some record is an outcome of exactly this token. */
  ghost predicate HasOutcome<S>(trace: seq<Record<S>>, token: Token) {
    exists i :: 0 <= i < |trace| && IsOutcome(trace[i].event) && trace[i].event.token == token
  }

  ghost predicate WasAcknowledged<S>(trace: seq<Record<S>>, token: Token) {
    exists i :: 0 <= i < |trace| && trace[i].event == EffectAcknowledged(token)
  }

  predicate IsFailure(event: Event, generation: nat) {
    (event.EffectFailed? || event.EffectCancelled?) && event.token.generation == generation
  }

  /** Some effect of this generation failed or was cancelled. */
  ghost predicate WentWrong<S>(trace: seq<Record<S>>, generation: nat) {
    exists i :: 0 <= i < |trace| && IsFailure(trace[i].event, generation)
  }

  /** The token belongs to the batch requested last and has no outcome yet. */
  ghost predicate Outstanding<S>(instanceId: nat, trace: seq<Record<S>>, token: Token) {
    && token.instanceId == instanceId && token.generation == Batches(trace) && token.effect in LatestBatch(trace)
    && !HasOutcome(trace, token)
  }

  /** The token is the only one left of its batch. */
  ghost predicate LastOutstanding<S>(instanceId: nat, trace: seq<Record<S>>, token: Token) {
    && Outstanding(instanceId, trace, token)
    && (forall effect :: effect in LatestBatch(trace) && effect != token.effect ==>
          HasOutcome(trace, Token(instanceId, effect, Batches(trace))))
  }

  // ---------------------------------------------------------------------------
  // The reference engine

  /** A state without effects is entered at once; a batch needs one more generation. */
  function Entering<S>(next: S, effects: seq<EffectIntent>, batches: nat): Option<(Phase<S>, seq<EffectIntent>)> {
    if effects == [] then Some((At(next), []))
    else if batches + 1 < U64_MAX then Some((EffectPending, effects))
    else None
  }

  /** The phase and effects with which an event is recorded, or nothing if it is refused. */
  ghost function Reply<S>(table: Table<S>, initial: S, instanceId: nat, traceLimit: nat, trace: seq<Record<S>>,
                          event: Event): Option<(Phase<S>, seq<EffectIntent>)>
  {
    if |trace| >= traceLimit then None
    else
      match Where(initial, trace)
      case At(state) =>
        if IsOutcome(event) || table(state, event).None? then None
        else Entering(table(state, event).value.0, table(state, event).value.1, Batches(trace))
      case EffectRecovery =>
        if event == Restart && Batches(trace) + 1 < U64_MAX then Some((EffectPending, LatestBatch(trace))) else None
      case EffectPending =>
        if !IsOutcome(event) || !Outstanding(instanceId, trace, event.token) then None
        else if !LastOutstanding(instanceId, trace, event.token) then Some((EffectPending, []))
        else if WentWrong(trace, Batches(trace)) || !event.EffectAcknowledged? then Some((EffectRecovery, []))
        else if Aim(table, trace).None? then None
        else
          match table(Aim(table, trace).value, event)
          case Some((next, effects)) => Entering(next, effects, Batches(trace))
          case None => Some((At(Aim(table, trace).value), []))
  }

  // ---------------------------------------------------------------------------
  // The engine's caches are what the trace says

  ghost predicate Mirrors<S(!new)>(table: Table<S>, initial: S, m: Machine<S>) {
    && Inv(table, m) && Correlated(m)
    && m.state == Where(initial, m.trace)
    && (m.deferred.Some? ==> Caches(table, m, m.deferred.value))
  }

  ghost predicate Caches<S>(table: Table<S>, m: Machine<S>, d: Deferred<S>) {
    && d.effects == LatestBatch(m.trace)
    && Aim(table, m.trace) == Some(d.target)
    && (d.hasUnsuccessfulOutcome <==> WentWrong(m.trace, Batches(m.trace)))
    && (forall t :: t in m.pending <==> Outstanding(m.instanceId, m.trace, t))
    && (forall t :: HasOutcome(m.trace, t) && t.generation == Batches(m.trace) ==>
          t.instanceId == m.instanceId && t.effect in d.effects)
  }

  lemma {:induction false} OutcomesAreSettled<S>(trace: seq<Record<S>>, token: Token)
    ensures HasOutcome(trace, token) <==> token in SettledTokens(trace)
  {
    if trace != [] {
      var (front, last) := (trace[..|trace| - 1], trace[|trace| - 1]);
      OutcomesAreSettled(front, token);
      assert trace == front + [last];
      OutcomeAppend(front, last, token, 0);
    }
  }

  lemma OutcomeAppend<S>(trace: seq<Record<S>>, record: Record<S>, token: Token, generation: nat)
    ensures HasOutcome(trace + [record], token) <==>
              HasOutcome(trace, token) || (IsOutcome(record.event) && record.event.token == token)
    ensures WentWrong(trace + [record], generation) <==>
              WentWrong(trace, generation) || IsFailure(record.event, generation)
  {
    var longer := trace + [record];
    assert longer[|trace|] == record;
    if HasOutcome(trace, token) {
      var i :| 0 <= i < |trace| && IsOutcome(trace[i].event) && trace[i].event.token == token;
      assert longer[i] == trace[i];
    }
    if WentWrong(trace, generation) {
      var i :| 0 <= i < |trace| && IsFailure(trace[i].event, generation);
      assert longer[i] == trace[i];
    }
    if HasOutcome(longer, token) && !(IsOutcome(record.event) && record.event.token == token) {
      var i :| 0 <= i < |longer| && IsOutcome(longer[i].event) && longer[i].event.token == token;
      assert trace[i] == longer[i];
    }
    if WentWrong(longer, generation) && !IsFailure(record.event, generation) {
      var i :| 0 <= i < |longer| && IsFailure(longer[i].event, generation);
      assert trace[i] == longer[i];
    }
  }

  lemma LatestAppend<S>(table: Table<S>, trace: seq<Record<S>>, record: Record<S>)
    ensures LatestBatch(trace + [record]) == if record.effects != [] then record.effects else LatestBatch(trace)
    ensures record.effects == [] ==> Aim(table, trace + [record]) == Aim(table, trace)
    ensures record.effects != [] && record.previous.At? ==>
              Aim(table, trace + [record]) == TargetOf(table(record.previous.state, record.event))
    ensures record.effects != [] && record.previous.EffectPending? && Aim(table, trace).Some? ==>
              Aim(table, trace + [record]) == TargetOf(table(Aim(table, trace).value, record.event))
    ensures record.effects != [] && record.previous.EffectRecovery? ==>
              Aim(table, trace + [record]) == Aim(table, trace)
  {
    assert (trace + [record])[..|trace|] == trace;
  }

  /** The generation a batch is about to get has seen no outcome. */
  lemma NextGenerationIsUnused<S>(m: Machine<S>, token: Token)
    requires Correlated(m) && token.generation >= m.nextGeneration
    ensures !HasOutcome(m.trace, token) && !WentWrong(m.trace, token.generation)
  {
    OutcomesAreSettled(m.trace, token);
    if WentWrong(m.trace, token.generation) {
      var i :| 0 <= i < |m.trace| && IsFailure(m.trace[i].event, token.generation);
      assert HasOutcome(m.trace, m.trace[i].event.token);
      OutcomesAreSettled(m.trace, m.trace[i].event.token);
      assert false;
    }
  }

  /** A new batch is outstanding as a whole, and nothing of it went wrong yet. */
  lemma NewBatchMirrors<S(!new)>(table: Table<S>, initial: S, m: Machine<S>, event: Event, next: S,
                                 effects: seq<EffectIntent>)
    requires Mirrors(table, initial, m) && Enter(m, event, next, effects).0.Ok? && effects != []
    requires IsOutcome(event) ==> event.token in m.pending
    requires var m' := Enter(m, event, next, effects).1;
             Inv(table, m') && Correlated(m') && Aim(table, m'.trace) == Some(next)
    ensures Mirrors(table, initial, Enter(m, event, next, effects).1)
  {
    var m' := Enter(m, event, next, effects).1;
    var record := Record(m.state, event, EffectPending, effects);
    assert m'.trace == m.trace + [record];
    LatestAppend(table, m.trace, record);
    TraceAppend(m.trace, record);
    var generation := m.nextGeneration;
    forall t: Token ensures t in m'.pending <==> Outstanding(m'.instanceId, m'.trace, t) {
      BatchTokens(m.instanceId, generation, effects, t);
      if t.generation == generation {
        OutcomeAppend(m.trace, record, t, generation);
        NextGenerationIsUnused(m, t);
      }
    }
    forall t: Token | HasOutcome(m'.trace, t) && t.generation == Batches(m'.trace) ensures false {
      OutcomeAppend(m.trace, record, t, generation);
      NextGenerationIsUnused(m, t);
    }
    var any := Token(m.instanceId, BeginJob, generation);
    OutcomeAppend(m.trace, record, any, generation);
    NextGenerationIsUnused(m, any);
  }

  lemma BatchTokens(instanceId: nat, generation: nat, effects: seq<EffectIntent>, t: Token)
    ensures t in Tokens(instanceId, generation, effects) <==>
              t.instanceId == instanceId && t.generation == generation && t.effect in effects
  {
    var tokens := Tokens(instanceId, generation, effects);
    if t in tokens {
      var i :| 0 <= i < |tokens| && tokens[i] == t;
      assert effects[i] == t.effect;
    }
    if t.instanceId == instanceId && t.generation == generation && t.effect in effects {
      var i :| 0 <= i < |effects| && effects[i] == t.effect;
      assert tokens[i] == t;
    }
  }

  /** An outcome that leaves the batch in place: what remains is what the trace leaves open. */
  lemma OutcomeMirrors<S(!new)>(table: Table<S>, initial: S, m: Machine<S>, event: Event, m': Machine<S>)
    requires Mirrors(table, initial, m) && m.deferred.Some? && m.state.EffectPending?
    requires IsOutcome(event) && event.token in m.pending
    requires Inv(table, m') && Correlated(m') && m'.instanceId == m.instanceId
    requires m'.trace == m.trace + [Record(m.state, event, m'.state, [])]
    requires m'.pending == Remove(m.pending, event.token)
    requires m'.deferred == Some(m.deferred.value.(hasUnsuccessfulOutcome :=
                                   m.deferred.value.hasUnsuccessfulOutcome || !event.EffectAcknowledged?))
    ensures Mirrors(table, initial, m')
  {
    var record := Record(m.state, event, m'.state, []);
    LatestAppend(table, m.trace, record);
    TraceAppend(m.trace, record);
    RemoveFacts(m.pending, event.token);
    forall t: Token ensures t in m'.pending <==> Outstanding(m'.instanceId, m'.trace, t) {
      OutcomeAppend(m.trace, record, t, 0);
    }
    forall t: Token | HasOutcome(m'.trace, t) && t.generation == Batches(m'.trace)
      ensures t.instanceId == m.instanceId && t.effect in m.deferred.value.effects
    {
      OutcomeAppend(m.trace, record, t, 0);
    }
    OutcomeAppend(m.trace, record, event.token, Batches(m.trace));
    assert event.token.generation == Batches(m.trace);
  }

  /** The last token of a batch is the only one pending. */
  lemma LastMeansAlone<S(!new)>(table: Table<S>, initial: S, m: Machine<S>, token: Token)
    requires Mirrors(table, initial, m) && m.deferred.Some? && token in m.pending
    ensures Remove(m.pending, token) == [] <==> LastOutstanding(m.instanceId, m.trace, token)
  {
    RemoveFacts(m.pending, token);
    var rest := Remove(m.pending, token);
    var generation := Batches(m.trace);
    if rest != [] {
      assert rest[0] in rest && Outstanding(m.instanceId, m.trace, rest[0]);
      assert rest[0] == Token(m.instanceId, rest[0].effect, generation);
    } else {
      forall effect | effect in LatestBatch(m.trace) && effect != token.effect
        ensures HasOutcome(m.trace, Token(m.instanceId, effect, generation))
      {
        var other := Token(m.instanceId, effect, generation);
        assert other !in m.pending;
      }
    }
  }

  // ---------------------------------------------------------------------------
  // The engine gives the reply of the reference

  /** The engine's step is the one the trace prescribes. */
  ghost predicate Agrees<S(!new)>(table: Table<S>, initial: S, m: Machine<S>, event: Event) {
    var (r, m') := Apply(table, m, event);
    var reply := Reply(table, initial, m.instanceId, m.traceLimit, m.trace, event);
    && (r.Ok? <==> reply.Some?)
    && (r.Ok? ==> m'.trace == m.trace + [Record(m.state, event, reply.value.0, reply.value.1)])
    && Mirrors(table, initial, m')
  }

  /** Entering a state, directly or through a batch, is recorded as the reference says. */
  lemma EnterAgrees<S(!new)>(table: Table<S>, initial: S, m: Machine<S>, event: Event, next: S,
                             effects: seq<EffectIntent>)
    requires Mirrors(table, initial, m) && (IsOutcome(event) ==> event.token in m.pending)
    requires Apply(table, m, event) == Enter(m, event, next, effects)
    requires Inv(table, Apply(table, m, event).1) && Correlated(Apply(table, m, event).1)
    requires Reply(table, initial, m.instanceId, m.traceLimit, m.trace, event)
          == Entering(next, effects, Batches(m.trace))
    requires effects != [] ==>
               Aim(table, m.trace + [Record(m.state, event, EffectPending, effects)]) == Some(next)
    ensures Agrees(table, initial, m, event)
  {
    hide Apply, Reply, Inv, Caches, Aim, LatestBatch, Tokens;
    var m' := Enter(m, event, next, effects).1;
    assert Batches(m.trace) + 1 == m.nextGeneration;
    hide Correlated;
    if Enter(m, event, next, effects).0.Ok? {
      assert m'.trace == m.trace + [Record(m.state, event, m'.state, effects)];
      if effects != [] { NewBatchMirrors(table, initial, m, event, next, effects); }
    }
  }

  lemma RestAgrees<S(!new)>(table: Table<S>, initial: S, m: Machine<S>, event: Event)
    requires WellFormed(table) && Mirrors(table, initial, m) && m.deferred.None? && |m.trace| < m.traceLimit
    requires Inv(table, Apply(table, m, event).1) && Correlated(Apply(table, m, event).1)
    ensures Agrees(table, initial, m, event)
  {
    hide WellFormed, Inv, Correlated, Caches, Apply, Reply, Aim, LatestBatch, Mirrors;
    RestReply(table, initial, m, event);
    if !IsOutcome(event) && table(m.state.state, event).Some? {
      var (next, effects) := table(m.state.state, event).value;
      LatestAppend(table, m.trace, Record(m.state, event, EffectPending, effects));
      EnterAgrees(table, initial, m, event, next, effects);
    }
  }

  /** At rest both the engine and the reference enter what the table says, or refuse. */
  lemma RestReply<S(!new)>(table: Table<S>, initial: S, m: Machine<S>, event: Event)
    requires WellFormed(table) && Mirrors(table, initial, m) && m.deferred.None? && |m.trace| < m.traceLimit
    ensures m.state.At?
    ensures var reply := Reply(table, initial, m.instanceId, m.traceLimit, m.trace, event);
            if !IsOutcome(event) && table(m.state.state, event).Some? then
              var (next, effects) := table(m.state.state, event).value;
              && Apply(table, m, event) == Enter(m, event, next, effects)
              && reply == Entering(next, effects, Batches(m.trace))
            else Apply(table, m, event).0.Err? && Apply(table, m, event).1 == m && reply.None?
  {
    assert event.EffectAcknowledged? ==> table(m.state.state, event).None?;
    hide WellFormed, Caches, Enter, Entering, Settle, Retry, Aim, LatestBatch, Outstanding, LastOutstanding, WentWrong;
  }

  lemma RecoveryAgrees<S(!new)>(table: Table<S>, initial: S, m: Machine<S>, event: Event)
    requires Mirrors(table, initial, m) && m.state.EffectRecovery? && |m.trace| < m.traceLimit
    requires Inv(table, Apply(table, m, event).1) && Correlated(Apply(table, m, event).1)
    ensures Agrees(table, initial, m, event)
  {
    var d := m.deferred.value;
    assert d.effects == LatestBatch(m.trace) && d.effects != [] && Aim(table, m.trace) == Some(d.target);
    hide Inv, Correlated, Caches, Enter, LatestBatch, Aim;
    if event == Restart {
      LatestAppend(table, m.trace, Record(m.state, event, EffectPending, d.effects));
      EnterAgrees(table, initial, m, event, d.target, d.effects);
    }
  }

  /** The whole batch succeeded: the target is entered, or the batch that follows it. */
  lemma SuccessAgrees<S(!new)>(table: Table<S>, initial: S, m: Machine<S>, event: Event)
    requires Mirrors(table, initial, m) && m.state.EffectPending? && |m.trace| < m.traceLimit
    requires event.EffectAcknowledged? && event.token in m.pending && Remove(m.pending, event.token) == []
    requires !m.deferred.value.hasUnsuccessfulOutcome
    requires Inv(table, Apply(table, m, event).1) && Correlated(Apply(table, m, event).1)
    ensures Agrees(table, initial, m, event)
  {
    var d := m.deferred.value;
    LastMeansAlone(table, initial, m, event.token);
    assert Aim(table, m.trace) == Some(d.target) && !WentWrong(m.trace, Batches(m.trace));
    hide Inv, Correlated, Caches, Enter, LatestBatch, Aim, Outstanding, LastOutstanding, WentWrong, Remove;
    var move := table(d.target, event);
    var (next, effects) := if move.Some? then move.value else (d.target, []);
    LatestAppend(table, m.trace, Record(m.state, event, EffectPending, effects));
    assert LastOutstanding(m.instanceId, m.trace, event.token) ==> Outstanding(m.instanceId, m.trace, event.token) by {
      LastIsOutstanding(m.instanceId, m.trace, event.token);
    }
    EnterAgrees(table, initial, m, event, next, effects);
  }

  lemma LastIsOutstanding<S>(instanceId: nat, trace: seq<Record<S>>, token: Token)
    ensures LastOutstanding(instanceId, trace, token) ==> Outstanding(instanceId, trace, token)
  {
  }

  /** The machine after an outcome that leaves the batch in place. */
  function Kept<S>(m: Machine<S>, d: Deferred<S>, event: Event): Machine<S>
    requires IsOutcome(event) && event.token in m.pending
  {
    var remaining := Remove(m.pending, event.token);
    Recorded(m, event, if remaining != [] then EffectPending else EffectRecovery, [], remaining,
             Some(d.(hasUnsuccessfulOutcome := d.hasUnsuccessfulOutcome || !event.EffectAcknowledged?)))
  }

  lemma KeptStep<S(!new)>(table: Table<S>, m: Machine<S>, event: Event)
    requires m.deferred.Some? && m.state.EffectPending? && |m.trace| < m.traceLimit
    requires IsOutcome(event) && event.token in m.pending
    requires Remove(m.pending, event.token) != []
             || m.deferred.value.hasUnsuccessfulOutcome || !event.EffectAcknowledged?
    ensures Apply(table, m, event) == (Ok(()), Kept(m, m.deferred.value, event))
  {
    hide Enter, Retry, Advance, Remove;
  }

  /** More outcomes are due, or the batch went wrong: it stays in place. */
  lemma OutcomeAgrees<S(!new)>(table: Table<S>, initial: S, m: Machine<S>, event: Event)
    requires Mirrors(table, initial, m) && m.state.EffectPending? && |m.trace| < m.traceLimit
    requires IsOutcome(event) && event.token in m.pending
    requires Remove(m.pending, event.token) != []
             || m.deferred.value.hasUnsuccessfulOutcome || !event.EffectAcknowledged?
    requires Inv(table, Apply(table, m, event).1) && Correlated(Apply(table, m, event).1)
    ensures Agrees(table, initial, m, event)
  {
    var d := m.deferred.value;
    KeptStep(table, m, event);
    LastMeansAlone(table, initial, m, event.token);
    assert Outstanding(m.instanceId, m.trace, event.token);
    assert d.hasUnsuccessfulOutcome <==> WentWrong(m.trace, Batches(m.trace));
    hide Inv, Correlated, Caches, LatestBatch, Aim, Outstanding, LastOutstanding, WentWrong, Remove, Entering, Apply;
    OutcomeMirrors(table, initial, m, event, Kept(m, d, event));
  }

  lemma PendingAgrees<S(!new)>(table: Table<S>, initial: S, m: Machine<S>, event: Event)
    requires Mirrors(table, initial, m) && m.state.EffectPending? && |m.trace| < m.traceLimit
    requires Inv(table, Apply(table, m, event).1) && Correlated(Apply(table, m, event).1)
    ensures Agrees(table, initial, m, event)
  {
    var d := m.deferred.value;
    assert IsOutcome(event) ==> (event.token in m.pending <==> Outstanding(m.instanceId, m.trace, event.token));
    hide Inv, Correlated, Caches, Enter, LatestBatch, Aim, Outstanding, LastOutstanding, WentWrong, Remove, Entering;
    if IsOutcome(event) && event.token in m.pending {
      hide Agrees, Reply, Apply;
      if Remove(m.pending, event.token) == [] && !d.hasUnsuccessfulOutcome && event.EffectAcknowledged? {
        SuccessAgrees(table, initial, m, event);
      } else {
        OutcomeAgrees(table, initial, m, event);
      }
    }
  }

  /** In a machine whose caches are right, the engine replies as the trace prescribes, and they stay right. */
  lemma StepAgrees<S(!new)>(table: Table<S>, initial: S, m: Machine<S>, event: Event)
    requires WellFormed(table) && Mirrors(table, initial, m)
    ensures Agrees(table, initial, m, event)
  {
    ApplyKeeps(table, m, event);
    StepCorrelates(table, m, event);
    if |m.trace| < m.traceLimit {
      hide WellFormed, Agrees, Correlated, Apply;
      if m.deferred.None? {
        RestAgrees(table, initial, m, event);
      } else if m.state.EffectRecovery? {
        RecoveryAgrees(table, initial, m, event);
      } else {
        PendingAgrees(table, initial, m, event);
      }
    }
  }

  // ---------------------------------------------------------------------------
  // Main results

  lemma {:induction false} RunMirrors<S(!new)>(table: Table<S>, initial: S, m: Machine<S>, events: seq<Event>)
    requires WellFormed(table) && Mirrors(table, initial, m)
    ensures Mirrors(table, initial, Run(table, m, events))
    ensures var end := Run(table, m, events); end.instanceId == m.instanceId && end.traceLimit == m.traceLimit
    decreases |events|
  {
    if events != [] {
      StepAgrees(table, initial, m, events[0]);
      StepKeepsIdentity(table, m, events[0]);
      hide Apply, Mirrors, WellFormed, Reply;
      RunMirrors(table, initial, Apply(table, m, events[0]).1, events[1..]);
    }
  }

  lemma StepKeepsIdentity<S(!new)>(table: Table<S>, m: Machine<S>, event: Event)
    requires WellFormed(table) && Inv(table, m)
    ensures var m' := Apply(table, m, event).1; m'.instanceId == m.instanceId && m'.traceLimit == m.traceLimit
  {
    hide Apply, Inv, WellFormed;
    ApplyKeeps(table, m, event);
    if Apply(table, m, event).0.Ok? { AcceptedStep(table, m, event); }
  }

  lemma FreshMirrors<S(!new)>(table: Table<S>, initial: S, instanceId: nat, traceLimit: nat)
    requires Quiet(table, initial)
    ensures Mirrors(table, initial, New(initial, instanceId, traceLimit))
  {
    NewIsCorrelated(table, initial, instanceId, traceLimit);
  }

  /**
   In every run of every well-formed lifecycle the engine replies to every event as its trace
   prescribes: an event is accepted if and only if the reference accepts it, and it is recorded
   with the phase and effects the reference gives. What is pending is exactly what the trace
   leaves open.
   */
  lemma EngineRefinesTrace<S(!new)>(table: Table<S>, initial: S, instanceId: nat, traceLimit: nat, events: seq<Event>,
                                    event: Event)
    requires WellFormed(table) && Quiet(table, initial)
    ensures var m := Run(table, New(initial, instanceId, traceLimit), events);
            var (r, m') := Apply(table, m, event);
            var reply := Reply(table, initial, instanceId, traceLimit, m.trace, event);
            && m.state == Where(initial, m.trace) && m.nextGeneration == Batches(m.trace) + 1
            && (forall t :: t in m.pending <==> m.state.EffectPending? && Outstanding(instanceId, m.trace, t))
            && (r.Ok? <==> reply.Some?)
            && (r.Err? ==> m' == m)
            && (r.Ok? ==>
                  && m'.state == reply.value.0
                  && m'.trace == m.trace + [Record(m.state, event, reply.value.0, reply.value.1)])
  {
    hide Apply, Reply, WellFormed, Run, Outstanding, PendingOk;
    FreshMirrors(table, initial, instanceId, traceLimit);
    RunMirrors(table, initial, New(initial, instanceId, traceLimit), events);
    var m := Run(table, New(initial, instanceId, traceLimit), events);
    StepAgrees(table, initial, m, event);
    ApplyKeeps(table, m, event);
    forall t ensures t in m.pending <==> m.state.EffectPending? && Outstanding(instanceId, m.trace, t) {
      assert m.deferred.Some? ==> (t in m.pending <==> Outstanding(instanceId, m.trace, t));
    }
  }

  /** No token has two outcomes. */
  lemma {:induction false} OneOutcomeEach<S>(trace: seq<Record<S>>, i: nat, j: nat)
    requires Distinct(SettledTokens(trace)) && i < j < |trace|
    requires IsOutcome(trace[i].event) && IsOutcome(trace[j].event)
    ensures trace[i].event.token != trace[j].event.token
  {
    var n := |trace| - 1;
    var (front, last) := (trace[..n], trace[n]);
    var settled := SettledTokens(front);
    assert SettledTokens(trace) == settled + OutcomeOf(last);
    assert Distinct(settled) by {
      forall a, b | 0 <= a < b < |settled| ensures settled[a] != settled[b] {
        assert settled[a] == SettledTokens(trace)[a] && settled[b] == SettledTokens(trace)[b];
      }
    }
    if j < n {
      OneOutcomeEach(front, i, j);
    } else {
      OutcomesAreSettled(front, trace[i].event.token);
      assert HasOutcome(front, trace[i].event.token) by { assert front[i] == trace[i]; }
      var k :| 0 <= k < |settled| && settled[k] == trace[i].event.token;
      assert SettledTokens(trace)[k] != SettledTokens(trace)[|settled|];
    }
  }

  /** Every effect of the batch was acknowledged under its generation. */
  ghost predicate AllAcknowledged<S>(instanceId: nat, batch: seq<EffectIntent>, generation: nat,
                                     trace: seq<Record<S>>) {
    forall effect :: effect in batch ==> WasAcknowledged(trace, Token(instanceId, effect, generation))
  }

  /** Every effect of the batch has an outcome. */
  ghost predicate AllSettled<S>(instanceId: nat, batch: seq<EffectIntent>, generation: nat, trace: seq<Record<S>>) {
    forall effect :: effect in batch ==> HasOutcome(trace, Token(instanceId, effect, generation))
  }

  /** A settled batch was acknowledged as a whole exactly when nothing of it went wrong. */
  lemma AcknowledgedIffNothingWrong<S(!new)>(table: Table<S>, initial: S, m: Machine<S>, event: Event, m': Machine<S>)
    requires Mirrors(table, initial, m) && m.state.EffectPending? && IsOutcome(event) && event.token in m.pending
    requires Correlated(m') && |m'.trace| == |m.trace| + 1 && m'.trace[..|m.trace|] == m.trace
    requires m'.trace[|m.trace|].event == event
    requires AllSettled(m.instanceId, LatestBatch(m.trace), Batches(m.trace), m'.trace)
    ensures AllAcknowledged(m.instanceId, LatestBatch(m.trace), Batches(m.trace), m'.trace)
       <==> !WentWrong(m'.trace, Batches(m.trace))
  {
    var (batch, generation, trace) := (LatestBatch(m.trace), Batches(m.trace), m'.trace);
    assert trace == m.trace + [trace[|m.trace|]];
    hide LatestBatch, Batches, Aim, PendingOk, PhaseOk, Where, SettledTokens;
    if !WentWrong(trace, generation) {
      forall effect | effect in batch ensures WasAcknowledged(trace, Token(m.instanceId, effect, generation)) {
        var token := Token(m.instanceId, effect, generation);
        assert HasOutcome(trace, token);
        var i :| 0 <= i < |trace| && IsOutcome(trace[i].event) && trace[i].event.token == token;
        assert !IsFailure(trace[i].event, generation);
      }
    } else {
      var i :| 0 <= i < |trace| && IsFailure(trace[i].event, generation);
      var token := trace[i].event.token;
      assert HasOutcome(trace, token);
      OutcomeAppend(m.trace, trace[|m.trace|], token, generation);
      assert token == Token(m.instanceId, token.effect, generation) && token.effect in batch;
      if WasAcknowledged(trace, token) {
        var j :| 0 <= j < |trace| && trace[j].event == EffectAcknowledged(token);
        if i < j { OneOutcomeEach(trace, i, j); } else { OneOutcomeEach(trace, j, i); }
      }
    }
  }

  /** The machine has gone to the target of the batch, or on to the batch that follows the target. */
  ghost predicate Arrived<S>(table: Table<S>, m: Machine<S>, event: Event, m': Machine<S>) {
    && Aim(table, m.trace).Some?
    && var target := Aim(table, m.trace).value;
    match table(target, event)
    case None => m'.state == At(target)
    case Some((next, effects)) =>
      if effects == [] then m'.state == At(next)
      else
        && m'.state.EffectPending? && Aim(table, m'.trace) == Some(next) && LatestBatch(m'.trace) == effects
        && Batches(m'.trace) == Batches(m.trace) + 1
  }

  /**
   Over every run, an accepted outcome belongs to the batch requested last. While other effects
   of the batch are open the machine waits on. With the last outcome it goes to recovery if and
   only if some effect of that generation failed or was cancelled, at any point of the run, and
   to the target, or the batch that follows it, if and only if every effect of the batch was
   acknowledged under that generation.
   */
  lemma LastOutcomeDecides<S(!new)>(table: Table<S>, initial: S, instanceId: nat, traceLimit: nat, events: seq<Event>,
                                    event: Event)
    requires WellFormed(table) && Quiet(table, initial) && IsOutcome(event)
    ensures var m := Run(table, New(initial, instanceId, traceLimit), events);
            var (r, m') := Apply(table, m, event);
            var (batch, generation) := (LatestBatch(m.trace), Batches(m.trace));
            r.Ok? ==>
              && event.token.instanceId == instanceId && event.token.generation == generation
              && event.token.effect in batch
              && if AllSettled(instanceId, batch, generation, m'.trace) then
                   && (m'.state.EffectRecovery? <==> WentWrong(m'.trace, generation))
                   && (Arrived(table, m, event, m') <==> AllAcknowledged(instanceId, batch, generation, m'.trace))
                 else m'.state.EffectPending? && Batches(m'.trace) == generation
  {
    hide Apply, WellFormed, Run, PendingOk, Aim, LatestBatch, AllSettled, AllAcknowledged, Arrived, WentWrong;
    FreshMirrors(table, initial, instanceId, traceLimit);
    RunMirrors(table, initial, New(initial, instanceId, traceLimit), events);
    var m := Run(table, New(initial, instanceId, traceLimit), events);
    hide Mirrors;
    OutcomeDecides(table, initial, m, event);
  }

  lemma OutcomeDecides<S(!new)>(table: Table<S>, initial: S, m: Machine<S>, event: Event)
    requires WellFormed(table) && Mirrors(table, initial, m) && IsOutcome(event)
    ensures var (r, m') := Apply(table, m, event);
            var (batch, generation) := (LatestBatch(m.trace), Batches(m.trace));
            r.Ok? ==>
              && event.token.instanceId == m.instanceId && event.token.generation == generation
              && event.token.effect in batch
              && if AllSettled(m.instanceId, batch, generation, m'.trace) then
                   && (m'.state.EffectRecovery? <==> WentWrong(m'.trace, generation))
                   && (Arrived(table, m, event, m') <==> AllAcknowledged(m.instanceId, batch, generation, m'.trace))
                 else m'.state.EffectPending? && Batches(m'.trace) == generation
  {
    StepAgrees(table, initial, m, event);
    if m.state.EffectPending? { PendingMeansOutstanding(table, initial, m, event.token); }
    var (r, m') := Apply(table, m, event);
    hide Apply, WellFormed, Inv, Correlated, Caches, Reply, LatestBatch, Aim, HasOutcome, WentWrong, AllAcknowledged,
    AllSettled, Arrived, Outstanding, LastOutstanding, Batches;
    if r.Ok? {
      var reply := Reply(table, initial, m.instanceId, m.traceLimit, m.trace, event).value;
      var record := Record(m.state, event, reply.0, reply.1);
      ReplyToOutcome(table, initial, m.instanceId, m.traceLimit, m.trace, event);
      LastSettlesAll(m.instanceId, m.trace, record);
      TraceAppend(m.trace, record);
      OutcomeAppend(m.trace, record, event.token, Batches(m.trace));
      ArrivedByReply(table, m, event, m', record);
      if AllSettled(m.instanceId, LatestBatch(m.trace), Batches(m.trace), m'.trace) {
        assert m'.trace[..|m.trace|] == m.trace;
        AcknowledgedIffNothingWrong(table, initial, m, event, m');
      }
    }
  }

  lemma PendingMeansOutstanding<S(!new)>(table: Table<S>, initial: S, m: Machine<S>, token: Token)
    requires Mirrors(table, initial, m) && m.state.EffectPending?
    ensures token in m.pending <==> Outstanding(m.instanceId, m.trace, token)
  {
  }

  /** Outcomes are accepted only while a batch is pending, and only for what is open. */
  lemma ReplyToOutcome<S(!new)>(table: Table<S>, initial: S, instanceId: nat, traceLimit: nat, trace: seq<Record<S>>,
                                event: Event)
    requires IsOutcome(event) && Reply(table, initial, instanceId, traceLimit, trace, event).Some?
    ensures Where(initial, trace).EffectPending? && Outstanding(instanceId, trace, event.token)
    ensures event.token.instanceId == instanceId && event.token.generation == Batches(trace)
    ensures event.token.effect in LatestBatch(trace)
    ensures var reply := Reply(table, initial, instanceId, traceLimit, trace, event).value;
            if !LastOutstanding(instanceId, trace, event.token) then reply == (EffectPending, [])
            else if WentWrong(trace, Batches(trace)) || !event.EffectAcknowledged? then reply == (EffectRecovery, [])
            else Onwards(table, trace, event, reply)
  {
    hide LatestBatch, Aim, HasOutcome, WentWrong, LastOutstanding;
  }

  /** A reply that goes to the target of the batch, or on to the batch that follows. */
  ghost predicate Onwards<S>(table: Table<S>, trace: seq<Record<S>>, event: Event,
                             reply: (Phase<S>, seq<EffectIntent>))
  {
    && Aim(table, trace).Some?
    && match table(Aim(table, trace).value, event)
       case None => reply == (At(Aim(table, trace).value), [])
       case Some((next, effects)) => reply == if effects == [] then (At(next), []) else (EffectPending, effects)
  }

  lemma ArrivedByReply<S>(table: Table<S>, m: Machine<S>, event: Event, m': Machine<S>, record: Record<S>)
    requires m.state.EffectPending? && record.previous == m.state && record.event == event && record.next == m'.state
    requires m'.trace == m.trace + [record]
    ensures Onwards(table, m.trace, event, (record.next, record.effects)) ==>
              Arrived(table, m, event, m') && !m'.state.EffectRecovery?
    ensures m'.state.EffectRecovery? ==> !Arrived(table, m, event, m')
  {
    LatestAppend(table, m.trace, record);
    TraceAppend(m.trace, record);
    hide LatestBatch, Aim, Batches;
  }

  /** The batch is settled exactly by the outcome of its last open token. */
  lemma LastSettlesAll<S>(instanceId: nat, trace: seq<Record<S>>, record: Record<S>)
    requires IsOutcome(record.event) && Outstanding(instanceId, trace, record.event.token)
    ensures AllSettled(instanceId, LatestBatch(trace), Batches(trace), trace + [record])
       <==> LastOutstanding(instanceId, trace, record.event.token)
  {
    var (batch, generation, token) := (LatestBatch(trace), Batches(trace), record.event.token);
    forall effect | effect in batch
      ensures HasOutcome(trace + [record], Token(instanceId, effect, generation))
         <==> HasOutcome(trace, Token(instanceId, effect, generation)) || effect == token.effect
    {
      OutcomeAppend(trace, record, Token(instanceId, effect, generation), 0);
    }
  }

  /**
   A refusal says why: the trace is full; generations are used up; an outcome is not the one
   awaited, named with everything that is; or the event does not belong here.
   */
  lemma RefusalSaysWhy<S(!new)>(table: Table<S>, m: Machine<S>, event: Event)
    requires WellFormed(table) && Inv(table, m) && Apply(table, m, event).0.Err?
    ensures var error := Apply(table, m, event).0.error;
            if |m.trace| >= m.traceLimit then error == TraceLimitReached(m.traceLimit)
            else if IsOutcome(event) && event.token in m.pending then error == EffectGenerationExhausted
            else if event.EffectAcknowledged? && m.state.EffectPending? then
              error == UnexpectedAcknowledgement(event.token, m.pending)
            else if event.EffectFailed? && !m.state.EffectRecovery? then
              error == UnexpectedEffectFailure(event.token, m.pending)
            else if event.EffectCancelled? && !m.state.EffectRecovery? then
              error == UnexpectedEffectCancellation(event.token, m.pending)
            else if event == Restart && m.state.EffectRecovery? then error == EffectGenerationExhausted
            else if m.state.At? && table(m.state.state, event).Some? then error == EffectGenerationExhausted
            else error == InvalidTransition(event)
  {
    hide WellFormed, PendingOk, Quiet, Tokens, Remove;
  }
}
