/**
 The FFmpeg supervisor against its trace alone: which inputs are accepted, what each of them
 issues, and how a run ends, all said in terms of what the run has recorded.
 */
module FfmpegOutcomes {
  import opened Wrappers
  import opened FfmpegLifecycles

  // ---------------------------------------------------------------------------
  // What a trace says

  /** The phase a trace ends in. */
  function Where(trace: seq<Transition>): State {
    if trace == [] then Prepared else trace[|trace| - 1].next
  }

  /** The issued effect that has not been completed yet. */
  function Open(trace: seq<Transition>): Option<Request> {
    if trace == [] then None
    else
      var last := trace[|trace| - 1];
      if last.issued.Some? then last.issued
      else if last.action.EffectCompleted? then None
      else Open(trace[..|trace| - 1])
  }

  predicate ExitSeen(trace: seq<Transition>) {
    exists i :: 0 <= i < |trace| && trace[i].action.ChildExitObserved?
  }

  predicate SpawnedBy(action: Action) {
    action.EffectCompleted? && action.outcome.Spawned?
  }

  predicate SpawnSeen(trace: seq<Transition>) {
    exists i :: 0 <= i < |trace| && SpawnedBy(trace[i].action)
  }

  /** How the child ended, if it was reaped. */
  function ReapedAs(trace: seq<Transition>): Option<Termination> {
    if trace == [] then None
    else
      match trace[|trace| - 1].action
      case EffectCompleted(_, Reap(Reaped(termination))) => Some(termination)
      case _ => ReapedAs(trace[..|trace| - 1])
  }

  /** After `before`, one more failed attempt at an effect is the last one allowed. */
  predicate LastAttempt(before: seq<Transition>, effect: Effect, limit: nat) {
    Completions(before, effect) + 1 >= limit
  }

  /**
   A completion that a run cannot recover from: a failure that ended its attempts, an end of
   the child other than exit code zero, or an output that did not validate.
   */
  predicate Fatal(limits: Limits, before: seq<Transition>, action: Action) {
    match action
    case EffectCompleted(_, outcome) =>
      (match outcome
       case SpawnFailed => true
       case ForcedKillFailed => !ExitSeen(before) && LastAttempt(before, ForceKillProcessTree, limits.forceKill)
       case Reap(WaitFailed(_)) => LastAttempt(before, ReapDirectChild, limits.reap)
       case Reap(Reaped(termination)) => termination != ExitCode(0)
       case DiagnosticsFailed => LastAttempt(before, PreserveDiagnostics, limits.diagnostics)
       case OutputInvalid => true
       case OutputValidationFailed => true
       case ResourceReleaseFailed => LastAttempt(before, ReleaseResources, limits.release)
       case _ => false)
    case _ => false
  }

  ghost predicate FatalSeen(limits: Limits, trace: seq<Transition>) {
    exists i :: 0 <= i < |trace| && Fatal(limits, trace[..i], trace[i].action)
  }

  /** The failure that a run reports: later causes replace earlier ones, except for lost diagnostics. */
  function Cause(limits: Limits, trace: seq<Transition>): Option<Failure> {
    if trace == [] then None
    else
      var (before, action) := (trace[..|trace| - 1], trace[|trace| - 1].action);
      var earlier := Cause(limits, before);
      if !action.EffectCompleted? then earlier
      else
        match action.outcome
        case SpawnFailed => Some(SpawnFailure)
        case ForcedKillFailed => if Fatal(limits, before, action) then Some(ForcedKillFailure) else earlier
        case Reap(WaitFailed(osCode)) => if Fatal(limits, before, action) then Some(WaitFailure(osCode)) else earlier
        case DiagnosticsPreserved => if earlier.Some? then earlier else EndOf(before)
        case DiagnosticsFailed =>
          if !Fatal(limits, before, action) then earlier
          else if earlier.Some? then earlier
          else if EndOf(before).Some? then EndOf(before)
          else Some(DiagnosticsFailure)
        case OutputInvalid => Some(OutputInvalidFailure)
        case OutputValidationFailed => Some(OutputValidationFailure)
        case ResourceReleaseFailed => if Fatal(limits, before, action) then Some(ReleaseFailure) else earlier
        case _ => earlier
  }

  /** The failure that the child's end stands for; a cancelled child may end as it likes. */
  function EndOf(trace: seq<Transition>): Option<Failure> {
    if CancelSeen(trace) then None
    else
      match ReapedAs(trace)
      case Some(ExitCode(code)) => if code == 0 then None else Some(NonzeroExit(code))
      case Some(UnixSignal(signal)) => Some(SignalFailure(signal))
      case Some(WindowsStatusOpaque(status)) => Some(StatusFailure(status))
      case Some(WindowsException(exception)) => Some(ExceptionFailure(exception))
      case None => None
  }

  // ---------------------------------------------------------------------------
  // The supervisor's facts are what its trace says

  predicate ToldChild(f: Facts, trace: seq<Transition>) {
    && (f.cancellationRequested <==> CancelSeen(trace))
    && (f.exitObserved <==> ExitSeen(trace))
    && (f.childSpawned <==> SpawnSeen(trace))
    && f.reaped == ReapedAs(trace)
  }

  predicate ToldCounts(f: Facts, trace: seq<Transition>) {
    && f.forceKillAttempts == Completions(trace, ForceKillProcessTree)
    && f.reapAttempts == Completions(trace, ReapDirectChild)
    && f.diagnosticAttempts == Completions(trace, PreserveDiagnostics)
    && f.releaseAttempts == Completions(trace, ReleaseResources)
  }

  ghost predicate Told(m: Machine) {
    && m.state == Where(m.trace) && m.pending == Open(m.trace)
    && ToldChild(m.facts, m.trace) && ToldCounts(m.facts, m.trace)
    && m.facts.failure == Cause(m.limits, m.trace)
  }

  lemma SeenAppend(trace: seq<Transition>, record: Transition)
    ensures ExitSeen(trace + [record]) <==> ExitSeen(trace) || record.action.ChildExitObserved?
    ensures SpawnSeen(trace + [record]) <==> SpawnSeen(trace) || SpawnedBy(record.action)
  {
    var longer := trace + [record];
    assert longer[|trace|] == record;
    if ExitSeen(trace) {
      var i :| 0 <= i < |trace| && trace[i].action.ChildExitObserved?;
      assert longer[i] == trace[i];
    }
    if SpawnSeen(trace) {
      var i :| 0 <= i < |trace| && SpawnedBy(trace[i].action);
      assert longer[i] == trace[i];
    }
    if ExitSeen(longer) && !record.action.ChildExitObserved? {
      var i :| 0 <= i < |longer| && longer[i].action.ChildExitObserved?;
      assert trace[i] == longer[i];
    }
    if SpawnSeen(longer) && !SpawnedBy(record.action) {
      var i :| 0 <= i < |longer| && SpawnedBy(longer[i].action);
      assert trace[i] == longer[i];
    }
  }

  lemma FatalAppend(limits: Limits, trace: seq<Transition>, record: Transition)
    ensures FatalSeen(limits, trace + [record]) <==> FatalSeen(limits, trace) || Fatal(limits, trace, record.action)
  {
    hide Fatal;
    var longer := trace + [record];
    assert longer[..|trace|] == trace && longer[|trace|] == record;
    if FatalSeen(limits, trace) {
      var i :| 0 <= i < |trace| && Fatal(limits, trace[..i], trace[i].action);
      assert longer[..i] == trace[..i] && longer[i] == trace[i];
    }
    if FatalSeen(limits, longer) && !Fatal(limits, trace, record.action) {
      var i :| 0 <= i < |longer| && Fatal(limits, longer[..i], longer[i].action);
      assert longer[..i] == trace[..i] && longer[i] == trace[i];
    }
  }

  /** What one record adds to what a trace says. */
  lemma CountAppend(trace: seq<Transition>, record: Transition, effect: Effect)
    ensures Completions(trace + [record], effect)
         == Completions(trace, effect) + if Completes(record.action, effect) then 1 else 0
  {
    assert (trace + [record])[..|trace|] == trace;
  }

  /** The reap that an action completes, if any. */
  function ReapOf(action: Action): Option<Termination> {
    match action
    case EffectCompleted(_, Reap(Reaped(termination))) => Some(termination)
    case _ => None
  }

  /** The facts that a single input brings: each from the input itself, all others as before. */
  predicate Learns(f: Facts, action: Action, f': Facts) {
    && (f'.cancellationRequested <==> f.cancellationRequested || action.Cancel?)
    && (f'.exitObserved <==> f.exitObserved || action.ChildExitObserved?)
    && (f'.childSpawned <==> f.childSpawned || SpawnedBy(action))
    && f'.reaped == if ReapOf(action).Some? then ReapOf(action) else f.reaped
  }

  lemma ObservationLearns(m: Machine, action: Action)
    requires !action.EffectCompleted? && PlanFor(m, action).Go?
    ensures Learns(m.facts, action, PlanFor(m, action).facts)
    ensures PlanFor(m, action).facts.failure == m.facts.failure
  {
  }

  /** Apart from its own counter, the failure and the evidence, diagnostics change no fact. */
  predicate SameChild(f: Facts, f': Facts) {
    && f'.cancellationRequested == f.cancellationRequested && f'.exitObserved == f.exitObserved
    && f'.childSpawned == f.childSpawned && f'.reaped == f.reaped
  }

  lemma DiagnosticsKeepChild(f: Facts, outcome: Outcome, retry: bool)
    ensures SameChild(f, DiagnosticsFacts(f, outcome, retry))
  {
    hide TerminationFailure, SaturatingIncrement;
  }

  lemma DiagnosticsLearns(m: Machine, outcome: Outcome)
    requires DiagnosticsPlan(m, outcome).Go?
    ensures SameChild(m.facts, DiagnosticsPlan(m, outcome).facts)
  {
    hide DiagnosticsFacts, SaturatingIncrement, SameChild;
    DiagnosticsKeepChild(m.facts, outcome, true);
    DiagnosticsKeepChild(m.facts, outcome, false);
  }

  lemma CompletionLearns(m: Machine, action: Action)
    requires action.EffectCompleted? && OutcomeMatches(action.request.effect, action.outcome)
    requires PlanFor(m, action).Go?
    ensures Learns(m.facts, action, PlanFor(m, action).facts)
  {
    hide TerminationFailure, SaturatingIncrement, DiagnosticsPlan;
    match action.request.effect
    case SpawnProcess =>
    case RequestGracefulStop =>
    case ForceKillProcessTree =>
    case ReapDirectChild =>
    case PreserveDiagnostics => DiagnosticsLearns(m, action.outcome);
    case ValidateOutput =>
    case ReleaseResources =>
  }

  lemma StepLearns(m: Machine, action: Action)
    requires Inv(m) && Step(m, action).0.Ok?
    ensures Learns(m.facts, action, Step(m, action).1.facts)
  {
    StepKeeps(m, action);
    hide Inv, PlanFor, Learns, OutcomeMatches;
    if action.EffectCompleted? { CompletionLearns(m, action); } else { ObservationLearns(m, action); }
  }

  /** The counter of a completed effect is about to be exact, so saturation does not enter the limits. */
  lemma StopCause(m: Machine, action: Action)
    requires Inv(m) && Told(m) && action.EffectCompleted? && Correlate(m, action).None? && PlanFor(m, action).Go?
    requires action.request.effect in {SpawnProcess, RequestGracefulStop, ForceKillProcessTree}
    ensures PlanFor(m, action).facts.failure
         == Cause(m.limits, m.trace + [Transition(m.state, action, PlanFor(m, action).next, None)])
  {
    var trace := m.trace + [Transition(m.state, action, PlanFor(m, action).next, None)];
    assert trace[..|m.trace|] == m.trace;
    IncrementIsExact(m);
    assert OutcomeMatches(action.request.effect, action.outcome);
    hide Inv, Where, Open, SaturatingIncrement, Completions;
  }

  lemma ReapCause(m: Machine, action: Action)
    requires Inv(m) && Told(m) && action.EffectCompleted? && Correlate(m, action).None? && PlanFor(m, action).Go?
    requires action.request.effect.ReapDirectChild?
    ensures PlanFor(m, action).facts.failure
         == Cause(m.limits, m.trace + [Transition(m.state, action, PlanFor(m, action).next, None)])
  {
    var trace := m.trace + [Transition(m.state, action, PlanFor(m, action).next, None)];
    assert trace[..|m.trace|] == m.trace;
    IncrementIsExact(m);
    assert OutcomeMatches(action.request.effect, action.outcome);
    hide Inv, Where, Open, SaturatingIncrement, Completions;
  }

  lemma CleanupCause(m: Machine, action: Action)
    requires Inv(m) && Told(m) && action.EffectCompleted? && Correlate(m, action).None? && PlanFor(m, action).Go?
    requires action.request.effect in {PreserveDiagnostics, ValidateOutput, ReleaseResources}
    ensures PlanFor(m, action).facts.failure
         == Cause(m.limits, m.trace + [Transition(m.state, action, PlanFor(m, action).next, None)])
  {
    var trace := m.trace + [Transition(m.state, action, PlanFor(m, action).next, None)];
    assert trace[..|m.trace|] == m.trace;
    IncrementIsExact(m);
    assert OutcomeMatches(action.request.effect, action.outcome);
    hide Inv, Where, Open, SaturatingIncrement, Completions;
  }

  /** A completion leaves the failure that the trace then shows. */
  lemma CompletionCause(m: Machine, action: Action)
    requires Inv(m) && Told(m) && action.EffectCompleted? && Correlate(m, action).None? && PlanFor(m, action).Go?
    ensures PlanFor(m, action).facts.failure
         == Cause(m.limits, m.trace + [Transition(m.state, action, PlanFor(m, action).next, None)])
  {
    hide Inv, Told, Correlate, PlanFor, Cause;
    match action.request.effect
    case SpawnProcess => StopCause(m, action);
    case RequestGracefulStop => StopCause(m, action);
    case ForceKillProcessTree => StopCause(m, action);
    case ReapDirectChild => ReapCause(m, action);
    case PreserveDiagnostics => CleanupCause(m, action);
    case ValidateOutput => CleanupCause(m, action);
    case ReleaseResources => CleanupCause(m, action);
  }

  lemma CauseIgnoresPhase(limits: Limits, trace: seq<Transition>, a: Transition, b: Transition)
    requires a.action == b.action
    ensures Cause(limits, trace + [a]) == Cause(limits, trace + [b])
    ensures ReapedAs(trace + [a]) == if ReapOf(a.action).Some? then ReapOf(a.action) else ReapedAs(trace)
    ensures !a.action.EffectCompleted? ==> Cause(limits, trace + [a]) == Cause(limits, trace)
  {
    assert (trace + [a])[..|trace|] == trace && (trace + [b])[..|trace|] == trace;
    hide Fatal, EndOf;
  }

  lemma StepTellsFailure(m: Machine, action: Action)
    requires Inv(m) && Told(m) && Step(m, action).0.Ok?
    ensures Step(m, action).1.facts.failure == Cause(m.limits, Step(m, action).1.trace)
  {
    StepKeeps(m, action);
    var plan := PlanFor(m, action);
    var record := Step(m, action).1.trace[|m.trace|];
    assert Step(m, action).1.trace == m.trace + [record];
    CauseIgnoresPhase(m.limits, m.trace, record, Transition(m.state, action, plan.next, None));
    assert Correlate(m, action).None?;
    hide Inv, PlanFor, Cause, Correlate;
    if action.EffectCompleted? { CompletionCause(m, action); } else { ObservationLearns(m, action); }
  }

  lemma StepTellsPhase(m: Machine, action: Action)
    requires Inv(m) && Told(m) && Step(m, action).0.Ok?
    ensures Step(m, action).1.state == Where(Step(m, action).1.trace)
    ensures Step(m, action).1.pending == Open(Step(m, action).1.trace)
  {
    StepKeeps(m, action);
    var m' := Step(m, action).1;
    assert m'.trace[..|m.trace|] == m.trace;
    assert m.pending == Open(m.trace);
    assert action.EffectCompleted? ==> PlanFor(m, action).settles by {
      if action.EffectCompleted? { CompletionSettles(m, action.request.effect, action.outcome); }
    }
    ObservationsSettleWithEffect(m, action);
    hide Inv, PlanFor, Told, PlanOk;
  }

  lemma CompletionSettles(m: Machine, effect: Effect, outcome: Outcome)
    requires CompletionPlan(m, effect, outcome).Go?
    ensures CompletionPlan(m, effect, outcome).settles
  {
    hide DiagnosticsFacts, SaturatingIncrement;
  }

  /** An observation leaves the open effect alone unless it issues one. */
  lemma ObservationsSettleWithEffect(m: Machine, action: Action)
    requires PlanFor(m, action).Go?
    ensures !action.EffectCompleted? ==> (PlanFor(m, action).settles <==> PlanFor(m, action).effect.Some?)
  {
    hide CompletionPlan;
  }

  lemma StepRecords(m: Machine, action: Action)
    requires Step(m, action).0.Ok?
    ensures var m' := Step(m, action).1;
            && m'.limits == m.limits && m'.traceLimit == m.traceLimit && m'.instanceId == m.instanceId
            && m'.trace == m.trace + [Step(m, action).0.value] && Step(m, action).0.value.action == action
  {
    hide PlanFor;
  }

  lemma StepTellsChild(m: Machine, action: Action)
    requires Inv(m) && Told(m) && Step(m, action).0.Ok?
    ensures ToldChild(Step(m, action).1.facts, Step(m, action).1.trace)
  {
    hide Inv, Step, Cause, Where, Open, ReapedAs, ExitSeen, SpawnSeen, CancelSeen, ToldCounts;
    StepLearns(m, action);
    StepRecords(m, action);
    var record := Step(m, action).0.value;
    SeenAppend(m.trace, record);
    MilestonesAppend(m.trace, record);
    CauseIgnoresPhase(m.limits, m.trace, record, record);
  }

  lemma StepTellsCount(m: Machine, action: Action, effect: Effect)
    requires Inv(m) && IsCounted(effect) && Step(m, action).0.Ok?
    requires Attempts(m.facts, effect) == Completions(m.trace, effect)
    ensures Attempts(Step(m, action).1.facts, effect) == Completions(Step(m, action).1.trace, effect)
  {
    hide Inv, Step, Attempts;
    StepCounts(m, action, effect);
    CountAppend(m.trace, Step(m, action).0.value, effect);
  }

  lemma StepTellsCounts(m: Machine, action: Action)
    requires Inv(m) && Told(m) && Step(m, action).0.Ok?
    ensures ToldCounts(Step(m, action).1.facts, Step(m, action).1.trace)
  {
    hide Inv, Step, Completions;
    StepTellsCount(m, action, ForceKillProcessTree);
    StepTellsCount(m, action, ReapDirectChild);
    StepTellsCount(m, action, PreserveDiagnostics);
    StepTellsCount(m, action, ReleaseResources);
  }

  lemma StepTold(m: Machine, action: Action)
    requires Inv(m) && Told(m)
    ensures Told(Step(m, action).1)
  {
    hide Inv, Step, ToldChild, ToldCounts, Where, Open, Cause;
    StepKeeps(m, action);
    if Step(m, action).0.Ok? {
      StepRecords(m, action);
      StepTellsFailure(m, action);
      StepTellsPhase(m, action);
      StepTellsChild(m, action);
      StepTellsCounts(m, action);
    }
  }

  // ---------------------------------------------------------------------------
  // What the facts say about how the run can still end

  /** The child has ended badly, and this will be the failure once diagnostics are done with. */
  predicate Unclassified(state: State, f: Facts) {
    state.DiagnosticsPending? && f.reaped.Some? && f.reaped.value != ExitCode(0)
  }

  /** A recorded failure leaves one of the five milestones unreached for good. */
  predicate Shows(state: State, f: Facts, validated: bool) {
    f.failure.Some? ==>
      && (state.DiagnosticsPending? ==> f.reaped.None?)
      && (state.OutputValidationPending? ==> !f.diagnosticsPreserved)
      && (state.ReleasePending? ==> f.reaped != Some(ExitCode(0)) || !f.diagnosticsPreserved || !validated)
      && (Terminal(state) ==>
            f.reaped != Some(ExitCode(0)) || !f.diagnosticsPreserved || !validated || !f.resourcesReleased)
  }

  ghost predicate Classified(state: State, f: Facts, validated: bool, fatal: bool) {
    && (!f.cancellationRequested ==> (fatal <==> f.failure.Some? || Unclassified(state, f)))
    && (state.Failed? ==> f.failure.Some?)
    && Shows(state, f, validated)
    && (state.Running? || state.GracefulExitPending? ==> !f.exitObserved)
    && (validated ==> state.ReleasePending? || Terminal(state))
  }

  predicate ValidatedBy(action: Action) {
    action.EffectCompleted? && action.outcome.OutputValidated?
  }

  ghost predicate ClassifiedNext(m: Machine, action: Action, validated: bool, fatal: bool) {
    var plan := PlanFor(m, action);
    plan.Go? ==>
      Classified(plan.next, plan.facts, validated || ValidatedBy(action), fatal || Fatal(m.limits, m.trace, action))
  }

  ghost predicate Classifiable(m: Machine, action: Action, validated: bool, fatal: bool) {
    && FactsOk(m.state, m.facts) && PendingOk(m) && Told(m) && Correlate(m, action).None?
    && Classified(m.state, m.facts, validated, fatal)
  }

  lemma ObservationClassifies(m: Machine, action: Action, validated: bool, fatal: bool)
    requires Classifiable(m, action, validated, fatal) && !action.EffectCompleted?
    ensures ClassifiedNext(m, action, validated, fatal)
  {
    hide Told;
  }

  lemma EarlyClassifies(m: Machine, action: Action, validated: bool, fatal: bool)
    requires Classifiable(m, action, validated, fatal) && action.EffectCompleted?
    requires action.request.effect.SpawnProcess? || action.request.effect.RequestGracefulStop?
             || action.request.effect.ValidateOutput?
    ensures ClassifiedNext(m, action, validated, fatal)
  {
    hide Told;
  }

  /** The attempt being completed is counted exactly. */
  predicate Exact(m: Machine, effect: Effect) {
    SaturatingIncrement(Attempts(m.facts, effect)) == Completions(m.trace, effect) + 1
  }

  lemma CountIsExact(m: Machine)
    requires Inv(m) && Told(m) && m.pending.Some? && IsCounted(m.pending.value.effect)
    ensures Exact(m, m.pending.value.effect)
  {
    IncrementIsExact(m);
    hide Inv, SaturatingIncrement, Completions;
  }

  lemma KillClassifies(m: Machine, action: Action, validated: bool, fatal: bool)
    requires Classifiable(m, action, validated, fatal) && action.EffectCompleted?
    requires action.request.effect.ForceKillProcessTree? && Exact(m, ForceKillProcessTree)
    ensures ClassifiedNext(m, action, validated, fatal)
  {
    assert m.facts.exitObserved <==> ExitSeen(m.trace);
    hide Told, SaturatingIncrement, Completions, ExitSeen;
  }

  lemma ReapClassifies(m: Machine, action: Action, validated: bool, fatal: bool)
    requires Classifiable(m, action, validated, fatal) && action.EffectCompleted?
    requires action.request.effect.ReapDirectChild? && Exact(m, ReapDirectChild)
    ensures ClassifiedNext(m, action, validated, fatal)
  {
    hide Told, SaturatingIncrement, Completions;
  }

  lemma DiagnosticsClassify(m: Machine, action: Action, validated: bool, fatal: bool)
    requires Classifiable(m, action, validated, fatal) && action.EffectCompleted?
    requires action.request.effect.PreserveDiagnostics? && Exact(m, PreserveDiagnostics)
    ensures ClassifiedNext(m, action, validated, fatal)
  {
    hide Told, SaturatingIncrement, Completions;
  }

  lemma ReleaseClassifies(m: Machine, action: Action, validated: bool, fatal: bool)
    requires Classifiable(m, action, validated, fatal) && action.EffectCompleted?
    requires action.request.effect.ReleaseResources? && Exact(m, ReleaseResources)
    ensures ClassifiedNext(m, action, validated, fatal)
  {
    hide Told, SaturatingIncrement, Completions;
  }

  lemma PlanClassifies(m: Machine, action: Action, validated: bool, fatal: bool)
    requires Inv(m) && Classifiable(m, action, validated, fatal)
    ensures ClassifiedNext(m, action, validated, fatal)
  {
    if action.EffectCompleted? {
      assert m.pending == Some(action.request);
      hide Inv, Classifiable, ClassifiedNext;
      if IsCounted(action.request.effect) {
        assert Told(m) by { ClassifiableIsTold(m, action, validated, fatal); }
        CountIsExact(m);
      }
      match action.request.effect
      case SpawnProcess => EarlyClassifies(m, action, validated, fatal);
      case RequestGracefulStop => EarlyClassifies(m, action, validated, fatal);
      case ValidateOutput => EarlyClassifies(m, action, validated, fatal);
      case ForceKillProcessTree => KillClassifies(m, action, validated, fatal);
      case ReapDirectChild => ReapClassifies(m, action, validated, fatal);
      case PreserveDiagnostics => DiagnosticsClassify(m, action, validated, fatal);
      case ReleaseResources => ReleaseClassifies(m, action, validated, fatal);
    } else {
      ObservationClassifies(m, action, validated, fatal);
    }
  }

  lemma ClassifiableIsTold(m: Machine, action: Action, validated: bool, fatal: bool)
    requires Classifiable(m, action, validated, fatal)
    ensures Told(m)
  {
  }

  /** Everything known of a run: its facts are told by its trace, which also says how it can end. */
  ghost predicate Known(m: Machine) {
    && Whole(m) && Told(m)
    && Classified(m.state, m.facts, OutputValidated in Milestones(m.trace), FatalSeen(m.limits, m.trace))
  }

  lemma ValidatedAppend(trace: seq<Transition>, record: Transition)
    ensures OutputValidated in Milestones(trace + [record]) <==>
              OutputValidated in Milestones(trace) || ValidatedBy(record.action)
  {
    MilestonesAppend(trace, record);
    hide Milestones;
  }

  lemma StepKnown(m: Machine, action: Action)
    requires Known(m)
    ensures Known(Step(m, action).1)
  {
    StepKeeps(m, action);
    StepTold(m, action);
    if Step(m, action).0.Ok? {
      StepRemembers(m, action);
      StepIsSafe(m, action);
      StepRecords(m, action);
      var record := Step(m, action).0.value;
      ValidatedAppend(m.trace, record);
      FatalAppend(m.limits, m.trace, record);
      PlanClassifies(m, action, OutputValidated in Milestones(m.trace), FatalSeen(m.limits, m.trace));
      hide Inv, Told, Classified, HistoryOk, SafeTrace, PlanFor, Milestones, FatalSeen, Fatal, PlanOk, IssuedCount;
    }
  }

  lemma {:induction false} RunKnown(m: Machine, actions: seq<Action>)
    requires Known(m)
    ensures Known(Run(m, actions)) && Run(m, actions).limits == m.limits
    ensures Run(m, actions).traceLimit == m.traceLimit && Run(m, actions).instanceId == m.instanceId
    decreases |actions|
  {
    if actions != [] {
      StepKnown(m, actions[0]);
      assert Inv(m);
      hide Inv, Known, Step, Whole;
      StepKeeps(m, actions[0]);
      if Step(m, actions[0]).0.Ok? { StepRecords(m, actions[0]); }
      RunKnown(Step(m, actions[0]).1, actions[1..]);
    }
  }

  lemma NewIsKnown(instanceId: nat, limits: Limits, traceLimit: nat)
    requires LimitsOk(limits)
    ensures Known(New(instanceId, limits, traceLimit))
  {
    NewIsWhole(instanceId, limits, traceLimit);
  }

  // ---------------------------------------------------------------------------
  // Main results

  const SUCCESS: seq<Outcome> :=
    [Spawned, Reap(Reaped(ExitCode(0))), DiagnosticsPreserved, OutputValidated, ResourcesReleased]

  lemma EvidenceIsComplete(f: Facts, validated: bool)
    ensures Evidence(f, validated) == SUCCESS <==>
              f.childSpawned && f.reaped == Some(ExitCode(0)) && f.diagnosticsPreserved && validated
              && f.resourcesReleased
    ensures OutputValidated in Evidence(f, validated) <==> validated
  {
    var e := Evidence(f, validated);
    if validated {
      var k := (if f.childSpawned then 1 else 0) + (if f.reaped.Some? then 1 else 0)
             + (if f.diagnosticsPreserved then 1 else 0);
      assert e[k] == OutputValidated;
    }
    if e == SUCCESS {
      assert f.childSpawned && f.reaped.Some? && f.diagnosticsPreserved && validated && f.resourcesReleased;
      assert e[1] == Reap(Reaped(f.reaped.value)) && SUCCESS[1] == Reap(Reaped(ExitCode(0)));
    }
  }

  /**
   How every run ends, told by its trace alone. A terminal run is cancelled if and only if a
   cancellation was accepted; it failed if and only if none was and some completion was fatal;
   and it exited if and only if none was and its milestones are spawned, reaped with exit code
   zero, diagnostics preserved, output validated and resources released, in this order. The
   failure it reports is the cause that the trace shows.
   */
  lemma TerminalIsTold(instanceId: nat, limits: Limits, traceLimit: nat, actions: seq<Action>)
    requires LimitsOk(limits)
    ensures var m := Run(New(instanceId, limits, traceLimit), actions);
            && m.facts.failure == Cause(limits, m.trace)
            && (Terminal(m.state) ==>
                  && (m.state.Cancelled? <==> CancelSeen(m.trace))
                  && (m.state.Failed? <==> !CancelSeen(m.trace) && FatalSeen(limits, m.trace))
                  && (m.state.Exited? <==> !CancelSeen(m.trace) && Milestones(m.trace) == SUCCESS))
  {
    NewIsKnown(instanceId, limits, traceLimit);
    RunKnown(New(instanceId, limits, traceLimit), actions);
    var m := Run(New(instanceId, limits, traceLimit), actions);
    SupervisorIsSafe(instanceId, limits, traceLimit, actions);
    var validated :| Remembers(m, validated);
    EvidenceIsComplete(m.facts, validated);
    hide Run, Cause, FatalSeen, CancelSeen, Milestones, Evidence, SafeTrace, Where, Open, ToldCounts, AttemptsOk,
        Budget, ReapedAs, ExitSeen, SpawnSeen;
  }

  lemma EvidenceOfCleanup(f: Facts, validated: bool)
    ensures DiagnosticsPreserved in Evidence(f, validated) <==> f.diagnosticsPreserved
    ensures ResourcesReleased in Evidence(f, validated) <==> f.resourcesReleased
  {
    var e := Evidence(f, validated);
    var k := (if f.childSpawned then 1 else 0) + (if f.reaped.Some? then 1 else 0);
    if f.diagnosticsPreserved { assert e[k] == DiagnosticsPreserved; }
    if f.resourcesReleased { assert e[|e| - 1] == ResourcesReleased; }
  }

  /** Over every run, what the supervisor reports of itself is what its trace shows. */
  lemma FactsAreTold(instanceId: nat, limits: Limits, traceLimit: nat, actions: seq<Action>)
    requires LimitsOk(limits)
    ensures var m := Run(New(instanceId, limits, traceLimit), actions);
            && (m.facts.cancellationRequested <==> CancelSeen(m.trace))
            && (m.facts.exitObserved <==> ExitSeen(m.trace))
            && (m.facts.childSpawned <==> SpawnSeen(m.trace))
            && m.facts.reaped == ReapedAs(m.trace)
            && (m.facts.diagnosticsPreserved <==> DiagnosticsPreserved in Milestones(m.trace))
            && (m.facts.resourcesReleased <==> ResourcesReleased in Milestones(m.trace))
  {
    hide Run, Milestones, Inv, SafeTrace, CancelSeen, ExitSeen, SpawnSeen, ReapedAs, Classified;
    NewIsKnown(instanceId, limits, traceLimit);
    RunKnown(New(instanceId, limits, traceLimit), actions);
    var m := Run(New(instanceId, limits, traceLimit), actions);
    var validated :| Remembers(m, validated);
    hide Evidence;
    EvidenceOfCleanup(m.facts, validated);
  }

  function Done(instanceId: nat, generation: nat, effect: Effect, outcome: Outcome): Action {
    EffectCompleted(Request(instanceId, generation, effect), outcome)
  }

  function SuccessfulRun(instanceId: nat): seq<Action> {
    [Start, Done(instanceId, 1, SpawnProcess, Spawned), ChildExitObserved,
     Done(instanceId, 2, ReapDirectChild, Reap(Reaped(ExitCode(0)))),
     Done(instanceId, 3, PreserveDiagnostics, DiagnosticsPreserved),
     Done(instanceId, 4, ValidateOutput, OutputValidated),
     Done(instanceId, 5, ReleaseResources, ResourcesReleased)]
  }

  /** The machine is in this phase, waits for this effect, knows these facts and has issued so many effects. */
  ghost predicate Is(m: Machine, state: State, awaited: Option<Effect>, facts: Facts, issued: nat, records: nat) {
    && m.state == state && m.facts == facts && m.nextGeneration == issued + 1 && |m.trace| == records
    && m.pending == if awaited.Some? then Some(Request(m.instanceId, issued, awaited.value)) else None
  }

  /** Carries out a plan that settles the phase. */
  lemma Takes(m: Machine, action: Action, next: State, effect: Option<Effect>, facts: Facts)
    requires Correlate(m, action).None? && PlanFor(m, action) == Go(next, effect, facts, true)
    requires |m.trace| < m.traceLimit && 0 < m.nextGeneration < 100
    ensures var m' := Step(m, action).1;
            && Is(m', next, effect, facts, m.nextGeneration - 1 + (if effect.Some? then 1 else 0), |m.trace| + 1)
            && m'.instanceId == m.instanceId && m'.limits == m.limits && m'.traceLimit == m.traceLimit
  {
    hide PlanFor, Correlate;
  }

  const SPAWNED_FACTS := NO_FACTS.(childSpawned := true)
  const EXITED_FACTS := SPAWNED_FACTS.(exitObserved := true)
  const REAPED_FACTS := EXITED_FACTS.(reapAttempts := 1, reaped := Some(ExitCode(0)))
  const PRESERVED_FACTS := REAPED_FACTS.(diagnosticAttempts := 1, diagnosticsPreserved := true)
  const RELEASED_FACTS := PRESERVED_FACTS.(releaseAttempts := 1, resourcesReleased := true)

  lemma RunsToReap(m: Machine)
    requires Is(m, Prepared, None, NO_FACTS, 0, 0) && LimitsOk(m.limits) && m.traceLimit >= 7
    ensures var id := m.instanceId;
            var m1 := Step(m, Start).1;
            var m2 := Step(m1, Done(id, 1, SpawnProcess, Spawned)).1;
            var m3 := Step(m2, ChildExitObserved).1;
            && Is(m3, ReapPending, Some(ReapDirectChild), EXITED_FACTS, 2, 3)
            && m3.instanceId == id && m3.limits == m.limits && m3.traceLimit == m.traceLimit
  {
    var id := m.instanceId;
    Takes(m, Start, Spawning, Some(SpawnProcess), NO_FACTS);
    var m1 := Step(m, Start).1;
    Takes(m1, Done(id, 1, SpawnProcess, Spawned), Running, None, SPAWNED_FACTS);
    var m2 := Step(m1, Done(id, 1, SpawnProcess, Spawned)).1;
    Takes(m2, ChildExitObserved, ReapPending, Some(ReapDirectChild), EXITED_FACTS);
  }

  lemma RunsToExit(m: Machine)
    requires Is(m, ReapPending, Some(ReapDirectChild), EXITED_FACTS, 2, 3) && LimitsOk(m.limits) && m.traceLimit >= 7
    ensures var id := m.instanceId;
            var m4 := Step(m, Done(id, 2, ReapDirectChild, Reap(Reaped(ExitCode(0))))).1;
            var m5 := Step(m4, Done(id, 3, PreserveDiagnostics, DiagnosticsPreserved)).1;
            var m6 := Step(m5, Done(id, 4, ValidateOutput, OutputValidated)).1;
            var m7 := Step(m6, Done(id, 5, ReleaseResources, ResourcesReleased)).1;
            m7.state.Exited? && |m7.trace| == 7
  {
    var id := m.instanceId;
    Takes(m, Done(id, 2, ReapDirectChild, Reap(Reaped(ExitCode(0)))), DiagnosticsPending, Some(PreserveDiagnostics),
          REAPED_FACTS);
    var m4 := Step(m, Done(id, 2, ReapDirectChild, Reap(Reaped(ExitCode(0))))).1;
    Takes(m4, Done(id, 3, PreserveDiagnostics, DiagnosticsPreserved), OutputValidationPending, Some(ValidateOutput),
          PRESERVED_FACTS);
    var m5 := Step(m4, Done(id, 3, PreserveDiagnostics, DiagnosticsPreserved)).1;
    Takes(m5, Done(id, 4, ValidateOutput, OutputValidated), ReleasePending, Some(ReleaseResources), PRESERVED_FACTS);
    var m6 := Step(m5, Done(id, 4, ValidateOutput, OutputValidated)).1;
    Takes(m6, Done(id, 5, ReleaseResources, ResourcesReleased), Exited, None, RELEASED_FACTS);
  }

  lemma RunTakes(m: Machine, actions: seq<Action>)
    requires actions != []
    ensures Run(m, actions) == Run(Step(m, actions[0]).1, actions[1..])
  {
  }

  lemma RunsSeven(m: Machine, actions: seq<Action>)
    requires |actions| == 7
    ensures var m3 := Step(Step(Step(m, actions[0]).1, actions[1]).1, actions[2]).1;
            var m7 := Step(Step(Step(Step(m3, actions[3]).1, actions[4]).1, actions[5]).1, actions[6]).1;
            Run(m, actions) == m7
  {
    hide Step, Run;
    var m1 := Step(m, actions[0]).1;
    var m2 := Step(m1, actions[1]).1;
    var m3 := Step(m2, actions[2]).1;
    var m4 := Step(m3, actions[3]).1;
    var m5 := Step(m4, actions[4]).1;
    var m6 := Step(m5, actions[5]).1;
    RunTakes(m, actions);
    RunTakes(m1, actions[1..]);
    RunTakes(m2, actions[2..]);
    RunTakes(m3, actions[3..]);
    RunTakes(m4, actions[4..]);
    RunTakes(m5, actions[5..]);
    RunTakes(m6, actions[6..]);
    assert forall k :: 0 <= k < 7 ==> actions[k..][1..] == actions[k + 1..];
    RunsNothing(Step(m6, actions[6]).1, actions[7..]);
  }

  lemma RunsNothing(m: Machine, actions: seq<Action>)
    requires actions == []
    ensures Run(m, actions) == m
  {
  }

  /** Whatever the limits, a run can exit: seven inputs, each accepted, lead from prepared to exited. */
  lemma SuccessIsReachable(instanceId: nat, limits: Limits, traceLimit: nat)
    requires LimitsOk(limits) && traceLimit >= 7
    ensures var m := Run(New(instanceId, limits, traceLimit), SuccessfulRun(instanceId));
            m.state.Exited? && |m.trace| == |SuccessfulRun(instanceId)|
  {
    hide Run, Step;
    var start := New(instanceId, limits, traceLimit);
    RunsToReap(start);
    var actions := SuccessfulRun(instanceId);
    RunsToExit(Step(Step(Step(start, actions[0]).1, actions[1]).1, actions[2]).1);
    RunsSeven(start, actions);
  }

  // ---------------------------------------------------------------------------
  // The reference supervisor: the reply to every input, from the trace alone

  datatype Move = Move(next: State, effect: Option<Effect>)

  function Issue(next: State, effect: Effect): Move {
    Move(next, Some(effect))
  }

  const SPAWN := Issue(Spawning, SpawnProcess)
  const STOP := Issue(GracefulStopPending, RequestGracefulStop)
  const KILL := Issue(ForcedKillPending, ForceKillProcessTree)
  const REAP := Issue(ReapPending, ReapDirectChild)
  const PRESERVE := Issue(DiagnosticsPending, PreserveDiagnostics)
  const VALIDATE := Issue(OutputValidationPending, ValidateOutput)
  const RELEASE := Issue(ReleasePending, ReleaseResources)

  /** What an input other than a completion does in the phase the trace ends in; nothing if it is refused. */
  function ReplyToInput(trace: seq<Transition>, action: Action): Option<Move>
    requires !action.EffectCompleted?
  {
    var state := Where(trace);
    match action
    case Start => if state.Prepared? then Some(SPAWN) else None
    case Cancel =>
      if Terminal(state) then None
      else if state.Prepared? then Some(RELEASE)
      else if state.Running? then Some(STOP)
      else Some(Move(state, None))
    case ChildExitObserved =>
      if state.Prepared? || state.Spawning? then None
      else if state.Running? || state.GracefulExitPending? then Some(REAP)
      else Some(Move(state, None))
    case GracePeriodExpired => if state.GracefulExitPending? then Some(KILL) else None
  }

  /** What a completion of the open effect does. */
  ghost function ReplyToOutcome(limits: Limits, trace: seq<Transition>, action: Action): Move
    requires action.EffectCompleted?
  {
    match action.outcome
    case Spawned => if CancelSeen(trace) then STOP else Move(Running, None)
    case SpawnFailed => PRESERVE
    case GracefulStopRequested => if ExitSeen(trace) then REAP else Move(GracefulExitPending, None)
    case GracefulStopUnsupported => if ExitSeen(trace) then REAP else KILL
    case GracefulStopFailed => if ExitSeen(trace) then REAP else KILL
    case ForcedKillRequested => REAP
    case ForcedKillAlreadyExited => REAP
    case ForcedKillFailed =>
      if ExitSeen(trace) then REAP
      else if LastAttempt(trace, ForceKillProcessTree, limits.forceKill) then PRESERVE
      else KILL
    case Reap(Reaped(_)) => PRESERVE
    case Reap(WaitFailed(_)) => if LastAttempt(trace, ReapDirectChild, limits.reap) then PRESERVE else REAP
    case DiagnosticsPreserved => AfterDiagnostics(trace)
    case DiagnosticsFailed =>
      if LastAttempt(trace, PreserveDiagnostics, limits.diagnostics) then AfterDiagnostics(trace) else PRESERVE
    case OutputValidated => RELEASE
    case OutputInvalid => RELEASE
    case OutputValidationFailed => RELEASE
    case ResourcesReleased => Move(EndState(limits, trace, action), None)
    case ResourceReleaseFailed =>
      if LastAttempt(trace, ReleaseResources, limits.release) then Move(EndState(limits, trace, action), None)
      else RELEASE
  }

  /** A child that was never reaped ends the run; a clean end of an uncancelled run goes on to validation. */
  function AfterDiagnostics(trace: seq<Transition>): Move {
    if SpawnSeen(trace) && ReapedAs(trace).None? then Move(if CancelSeen(trace) then Cancelled else Failed, None)
    else if !CancelSeen(trace) && ReapedAs(trace) == Some(ExitCode(0)) then VALIDATE
    else RELEASE
  }

  ghost function EndState(limits: Limits, trace: seq<Transition>, action: Action): State {
    if CancelSeen(trace) then Cancelled
    else if FatalSeen(limits, trace) || Fatal(limits, trace, action) then Failed
    else Exited
  }

  /** The one effect that an outcome can complete. */
  function EffectOf(outcome: Outcome): Effect {
    match outcome
    case Spawned => SpawnProcess
    case SpawnFailed => SpawnProcess
    case GracefulStopRequested => RequestGracefulStop
    case GracefulStopUnsupported => RequestGracefulStop
    case GracefulStopFailed => RequestGracefulStop
    case ForcedKillRequested => ForceKillProcessTree
    case ForcedKillAlreadyExited => ForceKillProcessTree
    case ForcedKillFailed => ForceKillProcessTree
    case Reap(_) => ReapDirectChild
    case DiagnosticsPreserved => PreserveDiagnostics
    case DiagnosticsFailed => PreserveDiagnostics
    case OutputValidated => ValidateOutput
    case OutputInvalid => ValidateOutput
    case OutputValidationFailed => ValidateOutput
    case ResourcesReleased => ReleaseResources
    case ResourceReleaseFailed => ReleaseResources
  }

  lemma OutcomesOfEffects(effect: Effect, outcome: Outcome)
    ensures OutcomeMatches(effect, outcome) <==> EffectOf(outcome) == effect
  {
  }

  /** The plan of the supervisor is the move of the reference. */
  ghost predicate Follows(m: Machine, action: Action, move: Option<Move>) {
    var plan := PlanFor(m, action);
    if move.None? then plan.Refuse? else plan.Go? && plan.next == move.value.next && plan.effect == move.value.effect
  }

  lemma InputFollows(m: Machine, action: Action)
    requires Inv(m) && Told(m) && !action.EffectCompleted?
    requires Classified(m.state, m.facts, OutputValidated in Milestones(m.trace), FatalSeen(m.limits, m.trace))
    ensures Follows(m, action, ReplyToInput(m.trace, action))
  {
    hide ToldChild, ToldCounts, Open, Cause, Where, Milestones, FatalSeen, Shows, AttemptsOk, Budget;
  }

  lemma StopOrSpawnFollows(m: Machine, action: Action)
    requires Inv(m) && Told(m) && action.EffectCompleted? && Correlate(m, action).None?
    requires action.request.effect.SpawnProcess? || action.request.effect.RequestGracefulStop?
             || action.request.effect.ValidateOutput?
    ensures Follows(m, action, Some(ReplyToOutcome(m.limits, m.trace, action)))
  {
    hide ToldCounts, Open, Cause, Where, FatalSeen, Fatal, AttemptsOk, Budget, FactsOk;
  }

  lemma KillOrReapFollows(m: Machine, action: Action)
    requires Inv(m) && Told(m) && action.EffectCompleted? && Correlate(m, action).None?
    requires action.request.effect.ForceKillProcessTree? || action.request.effect.ReapDirectChild?
    requires Exact(m, action.request.effect)
    ensures Follows(m, action, Some(ReplyToOutcome(m.limits, m.trace, action)))
  {
    assert m.facts.exitObserved <==> ExitSeen(m.trace);
    hide Inv, Told, ExitSeen, Completions, SaturatingIncrement, FatalSeen, Fatal;
  }

  lemma DiagnosticsFollow(m: Machine, action: Action)
    requires Inv(m) && Told(m) && action.EffectCompleted? && Correlate(m, action).None?
    requires action.request.effect.PreserveDiagnostics? && Exact(m, PreserveDiagnostics)
    ensures Follows(m, action, Some(ReplyToOutcome(m.limits, m.trace, action)))
  {
    assert FactsOk(DiagnosticsPending, m.facts) && ToldChild(m.facts, m.trace);
    hide Inv, Told, ExitSeen, SpawnSeen, CancelSeen, ReapedAs, Completions, SaturatingIncrement, FatalSeen, Fatal,
    DiagnosticsFacts;
  }

  lemma ReleaseFollows(m: Machine, action: Action)
    requires Inv(m) && Told(m) && action.EffectCompleted? && Correlate(m, action).None?
    requires Classified(m.state, m.facts, OutputValidated in Milestones(m.trace), FatalSeen(m.limits, m.trace))
    requires action.request.effect.ReleaseResources? && Exact(m, ReleaseResources)
    ensures Follows(m, action, Some(ReplyToOutcome(m.limits, m.trace, action)))
  {
    assert m.state.ReleasePending? && (m.facts.cancellationRequested <==> CancelSeen(m.trace));
    assert action.outcome.ResourcesReleased? || action.outcome.ResourceReleaseFailed?;
    hide Inv, Told, Correlate, OutcomeMatches, Shows;
    ReleaseEnds(m, action);
  }

  lemma ReleaseEnds(m: Machine, action: Action)
    requires m.state.ReleasePending? && (m.facts.cancellationRequested <==> CancelSeen(m.trace))
    requires action.EffectCompleted? && action.request.effect.ReleaseResources?
    requires action.outcome.ResourcesReleased? || action.outcome.ResourceReleaseFailed?
    requires Exact(m, ReleaseResources)
    requires !m.facts.cancellationRequested ==> (FatalSeen(m.limits, m.trace) <==> m.facts.failure.Some?)
    ensures Follows(m, action, Some(ReplyToOutcome(m.limits, m.trace, action)))
  {
    hide CancelSeen, FatalSeen, Completions, SaturatingIncrement, AfterDiagnostics, ExitSeen;
  }

  lemma OutcomeFollows(m: Machine, action: Action)
    requires Inv(m) && Told(m) && action.EffectCompleted? && Correlate(m, action).None?
    requires Classified(m.state, m.facts, OutputValidated in Milestones(m.trace), FatalSeen(m.limits, m.trace))
    ensures Follows(m, action, Some(ReplyToOutcome(m.limits, m.trace, action)))
  {
    assert m.pending == Some(action.request);
    hide Inv, Told, Classified, Follows, Correlate, ReplyToOutcome, Exact;
    if IsCounted(action.request.effect) { CountIsExact(m); }
    match action.request.effect
    case SpawnProcess => StopOrSpawnFollows(m, action);
    case RequestGracefulStop => StopOrSpawnFollows(m, action);
    case ValidateOutput => StopOrSpawnFollows(m, action);
    case ForceKillProcessTree => KillOrReapFollows(m, action);
    case ReapDirectChild => KillOrReapFollows(m, action);
    case PreserveDiagnostics => DiagnosticsFollow(m, action);
    case ReleaseResources => ReleaseFollows(m, action);
  }

  ghost function Reply(limits: Limits, trace: seq<Transition>, action: Action): Option<Move> {
    if action.EffectCompleted? then Some(ReplyToOutcome(limits, trace, action)) else ReplyToInput(trace, action)
  }

  /** The request that carries an effect, numbered by how many were issued before. */
  function Numbered(instanceId: nat, trace: seq<Transition>, effect: Option<Effect>): Option<Request> {
    if effect.Some? then Some(Request(instanceId, IssuedCount(trace) + 1, effect.value)) else None
  }

  /**
   In every run the supervisor answers every input as its trace prescribes. A completion is
   checked against the one open effect first; an input that does not belong to the phase is
   refused; so is every input once the trace is full. Otherwise exactly one record is added,
   with the phase and effect of the reference, and no other reply is possible.
   */
  lemma SupervisorRefinesTrace(instanceId: nat, limits: Limits, traceLimit: nat, actions: seq<Action>, action: Action)
    requires LimitsOk(limits)
    ensures var m := Run(New(instanceId, limits, traceLimit), actions);
            var (r, m') := Step(m, action);
            var reply := Reply(limits, m.trace, action);
            && m.state == Where(m.trace) && m.pending == Open(m.trace)
            && (r.Err? ==> m' == m)
            && if action.EffectCompleted? && Open(m.trace) != Some(action.request) then
                 r == Err(UnexpectedEffectCompletion(action.request, Open(m.trace)))
               else if action.EffectCompleted? && EffectOf(action.outcome) != action.request.effect then
                 r == Err(OutcomeDoesNotMatchEffect(action.request.effect, action.outcome))
               else if reply.None? then r == Err(InvalidTransition(Where(m.trace), action))
               else if |m.trace| >= traceLimit then r == Err(TraceLimitReached(traceLimit))
               else
                 var record := Transition(Where(m.trace), action, reply.value.next,
                                          Numbered(instanceId, m.trace, reply.value.effect));
                 r == Ok(record) && m'.trace == m.trace + [record]
  {
    hide Run, Reply;
    NewIsKnown(instanceId, limits, traceLimit);
    RunKnown(New(instanceId, limits, traceLimit), actions);
    var m := Run(New(instanceId, limits, traceLimit), actions);
    assert m.state == Where(m.trace) && m.pending == Open(m.trace);
    assert IssuedCount(m.trace) + 1 == m.nextGeneration;
    KnownFollows(m, action);
    StepKeeps(m, action);
    if action.EffectCompleted? { OutcomesOfEffects(action.request.effect, action.outcome); }
    hide Known, PlanFor, Where, Open, IssuedCount, OutcomeMatches, Inv, PlanOk;
  }

  lemma KnownFollows(m: Machine, action: Action)
    requires Known(m)
    ensures Correlate(m, action).None? ==> Follows(m, action, Reply(m.limits, m.trace, action))
  {
    hide HistoryOk, SafeTrace, Inv, Told, Classified, Follows, ReplyToOutcome, ReplyToInput, Correlate;
    if Correlate(m, action).None? {
      if action.EffectCompleted? { OutcomeFollows(m, action); } else { InputFollows(m, action); }
    }
  }
}
