/**
 The correlated-effect engine that drives every lifecycle using the generic wrapper.

 The engine is generic in the lifecycle's transition table, so what is proved here holds
 for every table with the stated shape; the commit, byte and other lifecycles supply theirs.
 A lifecycle's state type contains only its own states, so membership of a state in its
 machine kind is a matter of typing.
 */
module StateMachines {
  import opened Wrappers

  datatype EffectIntent =
    | BeginJob | RequestCancellation | ReleaseResources | ResolveSource | FollowRedirect | ReserveResources
    | AcceptBoundedBytes | ValidateAndWrite | SynchronizeData | RefreshManifest | DeliverToSink | DrainSink
    | SpawnProcess | TerminateProcess | ReapProcess | DispatchWorker | RecycleWorker | IsolateWorker
    | OpenPluginChannel | SendPluginRequest | ClosePluginChannel | ValidateOutput | RenameOutput
    | SynchronizeDirectory | AppendTransitionRecord | SynchronizeJournal | InsertArchiveRow
    | RemoveTemporaryState | RevalidatePreparedOutput | VerifyFinalArtifact | VerifyArchiveOutputPair
    | ProbeFilesystem | EstablishConfinedPath | ReportDegradedGuarantees | RejectFilesystem
    | NegotiateWatcher | SelfTestWatcherStorage | VerifyProducerCanary | ReportDiagnosticsDegraded
    | FlushWatcher | PreserveDiagnostics | DrainInFlightEffect

  /** Correlation token of one requested effect. */
  datatype Token = Token(instanceId: nat, effect: EffectIntent, generation: nat)

  datatype Event =
    | Start | Assign | Admit | Receive | Validate | PersistDurably | Redirect | Continue | Ready | Serve
    | Refresh | Drain | Spawn | Reap | Acknowledge
    | EffectAcknowledged(token: Token) | EffectFailed(token: Token) | EffectCancelled(token: Token)
    | Recycle | Quarantine | Prepare | Rename | Archive | Cleanup | Reconcile | Probe | Confine | Degrade
    | MarkStale | Reject | Release | Complete | Fail | Cancel | Restart

  predicate IsOutcome(event: Event) {
    event.EffectAcknowledged? || event.EffectFailed? || event.EffectCancelled?
  }

  type Table<!S> = (S, Event) -> Option<(S, seq<EffectIntent>)>

  /** A machine is at a lifecycle state, or between states while effects are outstanding. */
  datatype Phase<S> = EffectPending | EffectRecovery | At(state: S)

  datatype Record<S> = Record(previous: Phase<S>, event: Event, next: Phase<S>, effects: seq<EffectIntent>)

  datatype Deferred<S> = Deferred(target: S, effects: seq<EffectIntent>, hasUnsuccessfulOutcome: bool)

  datatype Machine<S> = Machine(
    instanceId: nat,
    traceLimit: nat,
    state: Phase<S>,
    trace: seq<Record<S>>,
    pending: seq<Token>,
    deferred: Option<Deferred<S>>,
    nextGeneration: nat)

  datatype TransitionError =
    | InvalidTransition(event: Event)
    | UnexpectedAcknowledgement(received: Token, expected: seq<Token>)
    | UnexpectedEffectFailure(received: Token, expected: seq<Token>)
    | UnexpectedEffectCancellation(received: Token, expected: seq<Token>)
    | EffectGenerationExhausted
    | TraceLimitReached(limit: nat)
    | ReplayMismatch(index: nat)
    | ByteDurabilityAcknowledgementRequired(effect: EffectIntent)

  function New<S>(initial: S, instanceId: nat, traceLimit: nat): Machine<S> {
    Machine(instanceId, traceLimit, At(initial), [], [], None, 1)
  }

  // ---------------------------------------------------------------------------
  // Applying one event

  function Tokens(instanceId: nat, generation: nat, effects: seq<EffectIntent>): seq<Token> {
    seq(|effects|, i requires 0 <= i < |effects| => Token(instanceId, effects[i], generation))
  }

  function Recorded<S>(m: Machine<S>, event: Event, next: Phase<S>, effects: seq<EffectIntent>,
                       pending: seq<Token>, deferred: Option<Deferred<S>>): Machine<S> {
    m.(state := next, pending := pending, deferred := deferred,
       trace := m.trace + [Record(m.state, event, next, effects)])
  }

  /** Moves to `next`, through a fresh batch of tokens when it needs effects first. */
  function Enter<S>(m: Machine<S>, event: Event, next: S, effects: seq<EffectIntent>)
    : (Result<(), TransitionError>, Machine<S>)
  {
    if effects == [] then (Ok(()), Recorded(m, event, At(next), [], [], None))
    else if m.nextGeneration >= U64_MAX then (Err(EffectGenerationExhausted), m)
    else
      (Ok(()),
       Recorded(m.(nextGeneration := m.nextGeneration + 1), event, EffectPending, effects,
                Tokens(m.instanceId, m.nextGeneration, effects), Some(Deferred(next, effects, false))))
  }

  function OutcomeError(event: Event, expected: seq<Token>): TransitionError {
    match event
    case EffectAcknowledged(token) => UnexpectedAcknowledgement(token, expected)
    case EffectFailed(token) => UnexpectedEffectFailure(token, expected)
    case EffectCancelled(token) => UnexpectedEffectCancellation(token, expected)
    case _ => InvalidTransition(event)
  }

  function Position(pending: seq<Token>, token: Token): (i: nat)
    requires token in pending
    ensures i < |pending| && pending[i] == token
  {
    if pending[0] == token then 0 else 1 + Position(pending[1..], token)
  }

  function Remove(pending: seq<Token>, token: Token): (r: seq<Token>)
    requires token in pending
    ensures |r| == |pending| - 1
  {
    var i := Position(pending, token);
    pending[..i] + pending[i + 1..]
  }

  /** One outcome of the outstanding batch; the last one decides where the batch leads. */
  function Settle<S>(table: Table<S>, m: Machine<S>, d: Deferred<S>, event: Event)
    : (Result<(), TransitionError>, Machine<S>)
  {
    if !IsOutcome(event) then (Err(InvalidTransition(event)), m)
    else if event.token !in m.pending then (Err(OutcomeError(event, m.pending)), m)
    else
      var remaining := Remove(m.pending, event.token);
      var d' := d.(hasUnsuccessfulOutcome := d.hasUnsuccessfulOutcome || !event.EffectAcknowledged?);
      if remaining != [] then (Ok(()), Recorded(m, event, EffectPending, [], remaining, Some(d')))
      else if d'.hasUnsuccessfulOutcome then (Ok(()), Recorded(m, event, EffectRecovery, [], [], Some(d')))
      else
        match table(d.target, event)
        case Some((next, effects)) => Enter(m, event, next, effects)
        case None => Enter(m, event, d.target, [])
  }

  /** Recovery accepts only a restart, which requests the same effects again under a fresh generation. */
  function Retry<S>(m: Machine<S>, d: Deferred<S>, event: Event): (Result<(), TransitionError>, Machine<S>) {
    if event != Restart then (Err(InvalidTransition(event)), m) else Enter(m, event, d.target, d.effects)
  }

  function Advance<S>(table: Table<S>, m: Machine<S>, event: Event): (Result<(), TransitionError>, Machine<S>) {
    if !m.state.At? then (Err(InvalidTransition(event)), m)
    else if event.EffectFailed? || event.EffectCancelled? then (Err(OutcomeError(event, m.pending)), m)
    else
      match table(m.state.state, event)
      case Some((next, effects)) => Enter(m, event, next, effects)
      case None => (Err(InvalidTransition(event)), m)
  }

  function Apply<S>(table: Table<S>, m: Machine<S>, event: Event): (Result<(), TransitionError>, Machine<S>) {
    if |m.trace| >= m.traceLimit then (Err(TraceLimitReached(m.traceLimit)), m)
    else
      match m.deferred
      case None => Advance(table, m, event)
      case Some(d) => if m.state.EffectRecovery? then Retry(m, d, event) else Settle(table, m, d, event)
  }

  function Run<S>(table: Table<S>, m: Machine<S>, events: seq<Event>): Machine<S>
    decreases |events|
  {
    if events == [] then m else Run(table, Apply(table, m, events[0]).1, events[1..])
  }

  // ---------------------------------------------------------------------------
  // Tables

  ghost predicate Distinct<T(!new)>(s: seq<T>) {
    forall i, j :: 0 <= i < j < |s| ==> s[i] != s[j]
  }

  /** A state in which the table ignores acknowledgements. */
  ghost predicate Quiet<S(!new)>(table: Table<S>, state: S) {
    forall token :: table(state, EffectAcknowledged(token)).None?
  }

  /**
   What the wrapper relies on: acknowledgements are not told apart by their token, machines
   come to rest only where acknowledgements are ignored, and no batch names an effect twice.
   */
  ghost predicate WellFormed<S(!new)>(table: Table<S>) {
    && (forall s, t, t' :: table(s, EffectAcknowledged(t)) == table(s, EffectAcknowledged(t')))
    && (forall s, e :: table(s, e).Some? ==>
          Distinct(table(s, e).value.1) && (table(s, e).value.1 == [] ==> Quiet(table, table(s, e).value.0)))
  }

  // ---------------------------------------------------------------------------
  // The invariant

  ghost predicate PendingOk<S>(m: Machine<S>) {
    && Distinct(m.pending)
    && (forall t :: t in m.pending ==> t.instanceId == m.instanceId && t.generation + 1 == m.nextGeneration)
  }

  ghost predicate PhaseOk<S(!new)>(table: Table<S>, m: Machine<S>) {
    match m.deferred
    case None => m.state.At? && m.pending == [] && Quiet(table, m.state.state)
    case Some(d) =>
      && d.effects != [] && Distinct(d.effects)
      && (forall t :: t in m.pending ==> t.effect in d.effects)
      && if m.pending == [] then m.state.EffectRecovery? && d.hasUnsuccessfulOutcome else m.state.EffectPending?
  }

  ghost predicate Inv<S(!new)>(table: Table<S>, m: Machine<S>) {
    1 <= m.nextGeneration <= U64_MAX && PendingOk(m) && PhaseOk(table, m)
  }

  lemma TokensOk(instanceId: nat, generation: nat, effects: seq<EffectIntent>)
    requires Distinct(effects)
    ensures Distinct(Tokens(instanceId, generation, effects))
    ensures forall t :: t in Tokens(instanceId, generation, effects) ==>
              t.instanceId == instanceId && t.generation == generation && t.effect in effects
  {
    var tokens := Tokens(instanceId, generation, effects);
    forall t | t in tokens ensures t.effect in effects && t.generation == generation && t.instanceId == instanceId {
      var i :| 0 <= i < |tokens| && tokens[i] == t;
      assert effects[i] == t.effect;
    }
  }

  lemma RemoveFacts(pending: seq<Token>, token: Token)
    requires Distinct(pending) && token in pending
    ensures Distinct(Remove(pending, token))
    ensures forall t :: t in Remove(pending, token) <==> t in pending && t != token
  {
    var i := Position(pending, token);
    var rest := Remove(pending, token);
    forall t | t in pending && t != token ensures t in rest {
      var k :| 0 <= k < |pending| && pending[k] == t;
      assert rest[if k < i then k else k - 1] == t;
    }
    forall t | t in rest ensures t in pending && t != token {
      var k :| 0 <= k < |rest| && rest[k] == t;
      assert pending[if k < i then k else k + 1] == t;
    }
  }

  lemma EnterKeeps<S(!new)>(table: Table<S>, m: Machine<S>, event: Event, next: S, effects: seq<EffectIntent>)
    requires Inv(table, m) && Distinct(effects) && (effects == [] ==> Quiet(table, next))
    ensures Inv(table, Enter(m, event, next, effects).1)
    ensures Enter(m, event, next, effects).0.Err? ==> Enter(m, event, next, effects).1 == m
  {
    TokensOk(m.instanceId, m.nextGeneration, effects);
    hide Distinct, Quiet;
    assert effects != [] ==> Tokens(m.instanceId, m.nextGeneration, effects) != [];
    assert Distinct<Token>([]) by { EmptyDistinct(); }
  }

  lemma EmptyDistinct()
    ensures Distinct<Token>([])
  {
  }

  lemma SettleKeeps<S(!new)>(table: Table<S>, m: Machine<S>, event: Event)
    requires WellFormed(table) && Inv(table, m) && m.state.EffectPending?
    ensures Inv(table, Settle(table, m, m.deferred.value, event).1)
    ensures Settle(table, m, m.deferred.value, event).0.Err? ==> Settle(table, m, m.deferred.value, event).1 == m
  {
    var d := m.deferred.value;
    if IsOutcome(event) && event.token in m.pending {
      RemoveFacts(m.pending, event.token);
      var remaining := Remove(m.pending, event.token);
      if remaining == [] && !d.hasUnsuccessfulOutcome && event.EffectAcknowledged? {
        match table(d.target, event)
        case Some((next, effects)) => EnterKeeps(table, m, event, next, effects);
        case None => EnterKeeps(table, m, event, d.target, []);
      }
    }
  }

  /** Every event keeps the invariant, and a rejected one changes nothing. */
  lemma ApplyKeeps<S(!new)>(table: Table<S>, m: Machine<S>, event: Event)
    requires WellFormed(table) && Inv(table, m)
    ensures Inv(table, Apply(table, m, event).1)
    ensures Apply(table, m, event).0.Err? ==> Apply(table, m, event).1 == m
  {
    if m.deferred.Some? {
      if m.state.EffectPending? {
        SettleKeeps(table, m, event);
      } else {
        EnterKeeps(table, m, event, m.deferred.value.target, m.deferred.value.effects);
      }
    } else if table(m.state.state, event).Some? {
      EnterKeeps(table, m, event, table(m.state.state, event).value.0, table(m.state.state, event).value.1);
    }
  }

  // ---------------------------------------------------------------------------
  // Correlation over whole runs

  function OutcomeOf<S>(record: Record<S>): seq<Token> {
    if IsOutcome(record.event) then [record.event.token] else []
  }

  /** The tokens whose outcome a run has accepted, in order. */
  function SettledTokens<S>(trace: seq<Record<S>>): seq<Token> {
    if trace == [] then [] else SettledTokens(trace[..|trace| - 1]) + OutcomeOf(trace[|trace| - 1])
  }

  /** How many batches of effects a run has requested. */
  function Batches<S>(trace: seq<Record<S>>): nat {
    if trace == [] then 0
    else Batches(trace[..|trace| - 1]) + if trace[|trace| - 1].effects != [] then 1 else 0
  }

  /** Outcomes are never accepted twice, and every batch has its own generation. */
  ghost predicate Correlated<S>(m: Machine<S>) {
    && Distinct(SettledTokens(m.trace))
    && (forall t :: t in SettledTokens(m.trace) ==>
          t.instanceId == m.instanceId && t.generation < m.nextGeneration && t !in m.pending)
    && Batches(m.trace) + 1 == m.nextGeneration
  }

  lemma TraceAppend<S>(trace: seq<Record<S>>, record: Record<S>)
    ensures SettledTokens(trace + [record]) == SettledTokens(trace) + OutcomeOf(record)
    ensures Batches(trace + [record]) == Batches(trace) + if record.effects != [] then 1 else 0
  {
    assert (trace + [record])[..|trace|] == trace;
  }

  /** The shape of an accepted step: one more record, and what may be outstanding afterwards. */
  ghost predicate StepShape<S>(m: Machine<S>, event: Event, m': Machine<S>) {
    && |m'.trace| == |m.trace| + 1 && m'.trace[..|m.trace|] == m.trace
    && var record := m'.trace[|m.trace|];
    && record.event == event && record.previous == m.state && record.next == m'.state
    && m'.instanceId == m.instanceId && m'.traceLimit == m.traceLimit
    && m'.nextGeneration == m.nextGeneration + (if record.effects != [] then 1 else 0)
    && (IsOutcome(event) ==> event.token in m.pending)
    && (record.effects != [] ==> m'.pending == Tokens(m.instanceId, m.nextGeneration, record.effects))
    && (record.effects == [] && m'.pending != [] ==> IsOutcome(event) && m'.pending == Remove(m.pending, event.token))
  }

  lemma EnterShape<S>(m: Machine<S>, event: Event, next: S, effects: seq<EffectIntent>)
    requires Enter(m, event, next, effects).0.Ok? && (IsOutcome(event) ==> event.token in m.pending)
    ensures StepShape(m, event, Enter(m, event, next, effects).1)
  {
    hide Tokens, Remove, Position;
    var m' := Enter(m, event, next, effects).1;
    assert m'.trace == m.trace + [Record(m.state, event, m'.state, effects)];
  }

  lemma SettleShape<S>(table: Table<S>, m: Machine<S>, d: Deferred<S>, event: Event)
    requires Settle(table, m, d, event).0.Ok? && m.state.EffectPending?
    ensures StepShape(m, event, Settle(table, m, d, event).1)
  {
    var remaining := Remove(m.pending, event.token);
    if remaining == [] && !d.hasUnsuccessfulOutcome && event.EffectAcknowledged? {
      hide Enter, StepShape;
      match table(d.target, event)
      case Some((next, effects)) => EnterShape(m, event, next, effects);
      case None => EnterShape(m, event, d.target, []);
    }
  }

  lemma AcceptedStep<S(!new)>(table: Table<S>, m: Machine<S>, event: Event)
    requires WellFormed(table) && Inv(table, m) && Apply(table, m, event).0.Ok?
    ensures StepShape(m, event, Apply(table, m, event).1)
  {
    hide Enter, Settle, StepShape;
    if m.deferred.Some? {
      if m.state.EffectPending? {
        SettleShape(table, m, m.deferred.value, event);
      } else {
        EnterShape(m, event, m.deferred.value.target, m.deferred.value.effects);
      }
    } else {
      assert !IsOutcome(event);
      EnterShape(m, event, table(m.state.state, event).value.0, table(m.state.state, event).value.1);
    }
  }

  /** How an accepted event can bring a machine to rest at a state. */
  lemma ComesToRest<S(!new)>(table: Table<S>, m: Machine<S>, event: Event)
    requires Inv(table, m) && Apply(table, m, event).0.Ok? && Apply(table, m, event).1.state.At?
    ensures var next := Apply(table, m, event).1.state.state;
            if m.deferred.None? then m.state.At? && table(m.state.state, event) == Some((next, []))
            else
              && m.state.EffectPending? && event.EffectAcknowledged?
              && (table(m.deferred.value.target, event) == Some((next, []))
                  || (table(m.deferred.value.target, event).None? && m.deferred.value.target == next))
  {
    hide Tokens, Remove, Position, PendingOk, Quiet;
  }

  /** After an accepted step nothing settled so far is outstanding. */
  lemma SettledStaysSettled<S>(m: Machine<S>, event: Event, m': Machine<S>, t: Token)
    requires PendingOk(m) && StepShape(m, event, m')
    requires t.generation < m.nextGeneration && (t !in m.pending || (IsOutcome(event) && t == event.token))
    ensures t !in m'.pending
  {
    var record := m'.trace[|m.trace|];
    if record.effects != [] {
      TokensFresh(m.instanceId, m.nextGeneration, record.effects);
    } else if m'.pending != [] {
      RemoveFacts(m.pending, event.token);
    }
  }

  lemma ShapeCorrelates<S>(m: Machine<S>, event: Event, m': Machine<S>)
    requires PendingOk(m) && Correlated(m) && StepShape(m, event, m')
    ensures Correlated(m')
  {
    var record := m'.trace[|m.trace|];
    assert m'.trace == m.trace + [record];
    TraceAppend(m.trace, record);
    SettledDistinct(m, event);
    hide SettledTokens, Batches, Distinct;
    forall t | t in SettledTokens(m'.trace)
      ensures t.instanceId == m'.instanceId && t.generation < m'.nextGeneration && t !in m'.pending
    {
      if t in SettledTokens(m.trace) {
        assert t.generation < m.nextGeneration && t !in m.pending;
      } else {
        assert IsOutcome(event) && t == event.token && t in m.pending;
      }
      SettledStaysSettled(m, event, m', t);
    }
  }

  lemma StepCorrelates<S(!new)>(table: Table<S>, m: Machine<S>, event: Event)
    requires WellFormed(table) && Inv(table, m) && Correlated(m)
    ensures Correlated(Apply(table, m, event).1)
  {
    ApplyKeeps(table, m, event);
    if Apply(table, m, event).0.Ok? {
      AcceptedStep(table, m, event);
      hide Apply, WellFormed, Correlated, StepShape, PendingOk, PhaseOk;
      ShapeCorrelates(m, event, Apply(table, m, event).1);
    }
  }

  lemma TokensFresh(instanceId: nat, generation: nat, effects: seq<EffectIntent>)
    ensures forall t :: t in Tokens(instanceId, generation, effects) ==> t.generation == generation
  {
  }

  lemma SettledDistinct<S>(m: Machine<S>, event: Event)
    requires Correlated(m) && (IsOutcome(event) ==> event.token in m.pending)
    ensures IsOutcome(event) ==> Distinct(SettledTokens(m.trace) + [event.token])
    ensures !IsOutcome(event) ==> Distinct(SettledTokens(m.trace) + [])
  {
    var settled := SettledTokens(m.trace);
    if IsOutcome(event) {
      forall i | 0 <= i < |settled| ensures settled[i] != event.token {
        assert settled[i] in settled;
      }
    } else {
      assert settled + [] == settled;
    }
  }

  /**
   In every run of every well-formed lifecycle: no outcome is ever accepted twice, batches
   (restarts included) carry the generations 1, 2, 3, ... in order, and the machine is
   pending exactly while tokens are outstanding and recovering exactly while a batch failed.
   */
  lemma {:induction false} RunIsCorrelated<S(!new)>(table: Table<S>, m: Machine<S>, events: seq<Event>)
    requires WellFormed(table) && Inv(table, m) && Correlated(m)
    ensures var end := Run(table, m, events);
            && Inv(table, end) && Correlated(end)
            && (end.state.EffectPending? <==> end.deferred.Some? && end.pending != [])
            && (end.state.EffectRecovery? <==> end.deferred.Some? && end.pending == [])
    decreases |events|
  {
    if events != [] {
      ApplyKeeps(table, m, events[0]);
      StepCorrelates(table, m, events[0]);
      hide Apply, Inv, Correlated, WellFormed;
      RunIsCorrelated(table, Apply(table, m, events[0]).1, events[1..]);
    }
  }

  lemma NewIsCorrelated<S(!new)>(table: Table<S>, initial: S, instanceId: nat, traceLimit: nat)
    requires Quiet(table, initial)
    ensures Inv(table, New(initial, instanceId, traceLimit)) && Correlated(New(initial, instanceId, traceLimit))
  {
  }

  /** A stale, duplicate or foreign outcome is rejected and changes nothing. */
  lemma ForeignOutcomeIsRejected<S(!new)>(table: Table<S>, m: Machine<S>, event: Event)
    requires WellFormed(table) && Inv(table, m) && IsOutcome(event) && event.token !in m.pending
    ensures Apply(table, m, event).0.Err? && Apply(table, m, event).1 == m
  {
    ApplyKeeps(table, m, event);
    if Apply(table, m, event).0.Ok? { AcceptedStep(table, m, event); }
  }

  // ---------------------------------------------------------------------------
  // Replay

  /** Re-applies recorded events and demands the same records; the first difference stops it. */
  function Replay<S(==)>(table: Table<S>, start: Machine<S>, records: seq<Record<S>>)
    : Result<Machine<S>, TransitionError>
  {
    if records == [] then Ok(start)
    else
      var n := |records| - 1;
      match Replay(table, start, records[..n])
      case Err(error) => Err(error)
      case Ok(m) =>
        var (r, m') := Apply(table, m, records[n].event);
        if r.Err? then Err(r.error)
        else if m'.trace == [] || m'.trace[|m'.trace| - 1] != records[n] then Err(ReplayMismatch(n))
        else Ok(m')
  }

  function EventsOf<S>(records: seq<Record<S>>): seq<Event> {
    if records == [] then [] else EventsOf(records[..|records| - 1]) + [records[|records| - 1].event]
  }

  lemma {:induction false} RunAppend<S>(table: Table<S>, m: Machine<S>, events: seq<Event>, event: Event)
    ensures Run(table, m, events + [event]) == Apply(table, Run(table, m, events), event).1
    decreases |events|
  {
    if events == [] {
      assert [event][1..] == [];
      assert events + [event] == [event];
    } else {
      hide Apply;
      assert (events + [event])[1..] == events[1..] + [event];
      RunAppend(table, Apply(table, m, events[0]).1, events[1..], event);
    }
  }

  lemma {:induction false} RunConcat<S>(table: Table<S>, m: Machine<S>, first: seq<Event>, second: seq<Event>)
    ensures Run(table, m, first + second) == Run(table, Run(table, m, first), second)
    decreases |first|
  {
    hide Apply;
    if first == [] {
      assert first + second == second;
    } else {
      assert (first + second)[1..] == first[1..] + second;
      RunConcat(table, Apply(table, m, first[0]).1, first[1..], second);
    }
  }

  lemma {:induction false} RunKeepsInv<S(!new)>(table: Table<S>, m: Machine<S>, events: seq<Event>)
    requires WellFormed(table) && Inv(table, m)
    ensures Inv(table, Run(table, m, events))
    decreases |events|
  {
    if events != [] {
      ApplyKeeps(table, m, events[0]);
      hide Apply, Inv, WellFormed;
      RunKeepsInv(table, Apply(table, m, events[0]).1, events[1..]);
    }
  }

  /** Replaying the trace of any run rebuilds the very same machine. */
  lemma {:induction false} ReplayRebuilds<S(!new)>(table: Table<S>, start: Machine<S>, events: seq<Event>)
    requires WellFormed(table) && Inv(table, start) && start.trace == []
    ensures Replay(table, start, Run(table, start, events).trace) == Ok(Run(table, start, events))
    decreases |events|
  {
    if events != [] {
      var n := |events| - 1;
      var (front, event) := (events[..n], events[n]);
      assert events == front + [event];
      ReplayRebuilds(table, start, front);
      RunAppend(table, start, front, event);
      RunKeepsInv(table, start, front);
      var m := Run(table, start, front);
      ApplyKeeps(table, m, event);
      if Apply(table, m, event).0.Ok? {
        AcceptedStep(table, m, event);
        var m' := Apply(table, m, event).1;
        hide Apply, Inv, WellFormed, Run;
        assert m'.trace[..|m'.trace| - 1] == m.trace;
      }
    }
  }

  lemma ReplayLast<S>(table: Table<S>, start: Machine<S>, records: seq<Record<S>>)
    requires records != [] && Replay(table, start, records).Ok?
    ensures var n := |records| - 1;
            && Replay(table, start, records[..n]).Ok?
            && var m := Replay(table, start, records[..n]).value;
            var m' := Replay(table, start, records).value;
            && Apply(table, m, records[n].event).0.Ok? && Apply(table, m, records[n].event).1 == m'
            && m'.trace != [] && m'.trace[|m'.trace| - 1] == records[n]
  {
    hide Apply;
  }

  lemma ReplayNothing<S>(table: Table<S>, start: Machine<S>)
    ensures Run(table, start, []) == start && Replay(table, start, []) == Ok(start)
  {
  }

  /** Whatever replay accepts is the trace of a run, and the rebuilt machine is that run's machine. */
  lemma {:induction false} ReplayIsRun<S(!new)>(table: Table<S>, start: Machine<S>, records: seq<Record<S>>)
    requires WellFormed(table) && Inv(table, start) && start.trace == []
    requires Replay(table, start, records).Ok?
    ensures Run(table, start, EventsOf(records)) == Replay(table, start, records).value
    ensures Replay(table, start, records).value.trace == records
    decreases |records|
  {
    hide Apply, Inv, WellFormed, Run, Replay;
    if records == [] {
      ReplayNothing(table, start);
    } else {
      var n := |records| - 1;
      var (front, event) := (records[..n], records[n].event);
      ReplayLast(table, start, records);
      ReplayIsRun(table, start, front);
      RunKeepsInv(table, start, EventsOf(front));
      RunAppend(table, start, EventsOf(front), event);
      var (m, m') := (Replay(table, start, front).value, Replay(table, start, records).value);
      AcceptedStep(table, m, event);
      assert m'.trace == m.trace + [records[n]];
      assert records == front + [records[n]];
    }
  }

  /** Replay accepts a record sequence if and only if it is the trace of some run. */
  lemma ReplayAcceptsExactlyTraces<S(!new)>(table: Table<S>, start: Machine<S>, records: seq<Record<S>>)
    requires WellFormed(table) && Inv(table, start) && start.trace == []
    ensures Replay(table, start, records).Ok? <==> exists events :: Run(table, start, events).trace == records
  {
    hide Run, Replay, Inv, WellFormed;
    if Replay(table, start, records).Ok? {
      ReplayIsRun(table, start, records);
      assert Run(table, start, EventsOf(records)).trace == records;
    }
    if exists events :: Run(table, start, events).trace == records {
      var events :| Run(table, start, events).trace == records;
      ReplayRebuilds(table, start, events);
    }
  }

  /**
   What a lifecycle is promised: every run of a fresh machine settles each token at most
   once, numbers its batches 1, 2, 3, ..., and is rebuilt exactly by replaying its trace.
   */
  ghost predicate CorrelatedAndReplayable<S(!new)>(table: Table<S>, initial: S) {
    forall instanceId: nat, traceLimit: nat, events ::
      KeepsPromise(table, New(initial, instanceId, traceLimit), events)
  }

  ghost predicate KeepsPromise<S(!new)>(table: Table<S>, start: Machine<S>, events: seq<Event>) {
    var m := Run(table, start, events);
    Correlated(m) && Replay(table, start, m.trace) == Ok(m)
  }

  /** The promise holds for every lifecycle whose table is well formed. */
  lemma WellFormedKeepsPromise<S(!new)>(table: Table<S>, initial: S)
    requires WellFormed(table) && Quiet(table, initial)
    ensures CorrelatedAndReplayable(table, initial)
  {
    forall instanceId: nat, traceLimit: nat, events
      ensures KeepsPromise(table, New(initial, instanceId, traceLimit), events)
    {
      var start := New(initial, instanceId, traceLimit);
      hide Run, Replay, Inv, Correlated, WellFormed, Quiet;
      NewIsCorrelated(table, initial, instanceId, traceLimit);
      RunIsCorrelated(table, start, events);
      ReplayRebuilds(table, start, events);
    }
  }
}
