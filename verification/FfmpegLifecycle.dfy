/**
 The version-two FFmpeg supervisor: one pending effect at a time, bounded cleanup
 attempts, sticky cancellation. What each input does, and what holds over every run.
 */
module FfmpegLifecycles {
  import opened Wrappers

  datatype State =
    | Prepared | Spawning | Running | GracefulStopPending | GracefulExitPending | ForcedKillPending
    | ReapPending | DiagnosticsPending | OutputValidationPending | ReleasePending | Exited | Failed | Cancelled

  datatype Effect =
    | SpawnProcess | RequestGracefulStop | ForceKillProcessTree | ReapDirectChild
    | PreserveDiagnostics | ValidateOutput | ReleaseResources

  datatype Termination =
    | ExitCode(code: int) | UnixSignal(signal: int) | WindowsStatusOpaque(status: nat)
    | WindowsException(exception: nat)

  datatype ReapOutcome = Reaped(termination: Termination) | WaitFailed(osCode: Option<int>)

  datatype Outcome =
    | Spawned | SpawnFailed
    | GracefulStopRequested | GracefulStopUnsupported | GracefulStopFailed
    | ForcedKillRequested | ForcedKillAlreadyExited | ForcedKillFailed
    | Reap(reap: ReapOutcome)
    | DiagnosticsPreserved | DiagnosticsFailed
    | OutputValidated | OutputInvalid | OutputValidationFailed
    | ResourcesReleased | ResourceReleaseFailed

  datatype Request = Request(instanceId: nat, generation: nat, effect: Effect)

  datatype Failure =
    | SpawnFailure | ForcedKillFailure | WaitFailure(osCode: Option<int>) | NonzeroExit(code: int)
    | SignalFailure(signal: int) | StatusFailure(status: nat) | ExceptionFailure(exception: nat)
    | DiagnosticsFailure | OutputInvalidFailure | OutputValidationFailure | ReleaseFailure

  datatype Action =
    | Start | Cancel | ChildExitObserved | GracePeriodExpired
    | EffectCompleted(request: Request, outcome: Outcome)

  datatype Transition = Transition(previous: State, action: Action, next: State, issued: Option<Request>)

  datatype Error =
    | InvalidTransition(state: State, action: Action)
    | UnexpectedEffectCompletion(received: Request, expected: Option<Request>)
    | OutcomeDoesNotMatchEffect(effect: Effect, outcome: Outcome)
    | TraceLimitReached(limit: nat)
    | EffectGenerationExhausted

  datatype Limits = Limits(forceKill: nat, reap: nat, diagnostics: nat, release: nat)

  const U8_MAX: nat := 255

  ghost predicate LimitsOk(limits: Limits) {
    && 0 < limits.forceKill <= U8_MAX && 0 < limits.reap <= U8_MAX
    && 0 < limits.diagnostics <= U8_MAX && 0 < limits.release <= U8_MAX
  }

  /** What the supervisor has learnt so far, apart from its phase. */
  datatype Facts = Facts(
    cancellationRequested: bool,
    exitObserved: bool,
    childSpawned: bool,
    forceKillAttempts: nat,
    reapAttempts: nat,
    diagnosticAttempts: nat,
    releaseAttempts: nat,
    reaped: Option<Termination>,
    failure: Option<Failure>,
    cleanupUnproven: bool,
    diagnosticsPreserved: bool,
    resourcesReleased: bool)

  datatype Machine = Machine(
    instanceId: nat,
    limits: Limits,
    traceLimit: nat,
    state: State,
    trace: seq<Transition>,
    pending: Option<Request>,
    nextGeneration: nat,
    facts: Facts)

  const NO_FACTS := Facts(false, false, false, 0, 0, 0, 0, None, None, false, false, false)

  function New(instanceId: nat, limits: Limits, traceLimit: nat): Machine {
    Machine(instanceId, limits, traceLimit, Prepared, [], None, 1, NO_FACTS)
  }

  predicate Terminal(state: State) {
    state.Exited? || state.Failed? || state.Cancelled?
  }

  predicate OutcomeMatches(effect: Effect, outcome: Outcome) {
    match effect
    case SpawnProcess => outcome.Spawned? || outcome.SpawnFailed?
    case RequestGracefulStop =>
      outcome.GracefulStopRequested? || outcome.GracefulStopUnsupported? || outcome.GracefulStopFailed?
    case ForceKillProcessTree =>
      outcome.ForcedKillRequested? || outcome.ForcedKillAlreadyExited? || outcome.ForcedKillFailed?
    case ReapDirectChild => outcome.Reap?
    case PreserveDiagnostics => outcome.DiagnosticsPreserved? || outcome.DiagnosticsFailed?
    case ValidateOutput => outcome.OutputValidated? || outcome.OutputInvalid? || outcome.OutputValidationFailed?
    case ReleaseResources => outcome.ResourcesReleased? || outcome.ResourceReleaseFailed?
  }

  function TerminationFailure(termination: Option<Termination>): Option<Failure> {
    match termination
    case None => None
    case Some(ExitCode(code)) => if code == 0 then None else Some(NonzeroExit(code))
    case Some(UnixSignal(signal)) => Some(SignalFailure(signal))
    case Some(WindowsStatusOpaque(status)) => Some(StatusFailure(status))
    case Some(WindowsException(exception)) => Some(ExceptionFailure(exception))
  }

  function SaturatingIncrement(n: nat): nat {
    if n < U8_MAX then n + 1 else U8_MAX
  }

  // ---------------------------------------------------------------------------
  // Where an input leads: the next phase, the effect to issue, and the new facts

  datatype Plan = Refuse | Go(next: State, effect: Option<Effect>, facts: Facts, settles: bool)

  function CancelPlan(m: Machine): Plan {
    var facts := m.facts.(cancellationRequested := true);
    if Terminal(m.state) then Refuse
    else if m.state.Prepared? then Go(ReleasePending, Some(ReleaseResources), facts, true)
    else if m.state.Running? && m.pending.None? then Go(GracefulStopPending, Some(RequestGracefulStop), facts, true)
    else Go(m.state, None, facts, false)
  }

  function ExitObservedPlan(m: Machine): Plan {
    var facts := m.facts.(exitObserved := true);
    match m.state
    case Running => if m.pending.None? then Go(ReapPending, Some(ReapDirectChild), facts, true) else Refuse
    case GracefulExitPending => if m.pending.None? then Go(ReapPending, Some(ReapDirectChild), facts, true) else Refuse
    case Prepared => Refuse
    case Spawning => Refuse
    case _ => Go(m.state, None, facts, false)
  }

  function GraceExpiredPlan(m: Machine): Plan {
    if !m.state.GracefulExitPending? || m.pending.Some? then Refuse
    else if m.facts.exitObserved then Go(ReapPending, Some(ReapDirectChild), m.facts, true)
    else Go(ForcedKillPending, Some(ForceKillProcessTree), m.facts, true)
  }

  function SpawnPlan(m: Machine, outcome: Outcome): Plan {
    var facts := m.facts;
    match outcome
    case Spawned =>
      var facts' := facts.(childSpawned := true);
      if facts.cancellationRequested then Go(GracefulStopPending, Some(RequestGracefulStop), facts', true)
      else Go(Running, None, facts', true)
    case SpawnFailed => Go(DiagnosticsPending, Some(PreserveDiagnostics), facts.(failure := Some(SpawnFailure)), true)
    case _ => Refuse
  }

  function GracefulPlan(m: Machine, outcome: Outcome): Plan {
    if m.facts.exitObserved then Go(ReapPending, Some(ReapDirectChild), m.facts, true)
    else if outcome.GracefulStopRequested? then Go(GracefulExitPending, None, m.facts, true)
    else Go(ForcedKillPending, Some(ForceKillProcessTree), m.facts, true)
  }

  function ForcedKillPlan(m: Machine, outcome: Outcome): Plan {
    var attempt := SaturatingIncrement(m.facts.forceKillAttempts);
    var facts := m.facts.(forceKillAttempts := attempt);
    if !outcome.ForcedKillFailed? || facts.exitObserved then Go(ReapPending, Some(ReapDirectChild), facts, true)
    else if attempt < m.limits.forceKill then Go(ForcedKillPending, Some(ForceKillProcessTree), facts, true)
    else
      Go(DiagnosticsPending, Some(PreserveDiagnostics),
         facts.(failure := Some(ForcedKillFailure), cleanupUnproven := true), true)
  }

  function ReapPlan(m: Machine, outcome: Outcome): Plan {
    var attempt := SaturatingIncrement(m.facts.reapAttempts);
    var facts := m.facts.(reapAttempts := attempt);
    match outcome
    case Reap(Reaped(termination)) =>
      Go(DiagnosticsPending, Some(PreserveDiagnostics), facts.(reaped := Some(termination)), true)
    case Reap(WaitFailed(osCode)) =>
      if attempt < m.limits.reap then Go(ReapPending, Some(ReapDirectChild), facts, true)
      else
        Go(DiagnosticsPending, Some(PreserveDiagnostics),
           facts.(failure := Some(WaitFailure(osCode)), cleanupUnproven := true), true)
    case _ => Refuse
  }

  function DiagnosticsFacts(f: Facts, outcome: Outcome, retry: bool): Facts {
    var facts := f.(diagnosticAttempts := SaturatingIncrement(f.diagnosticAttempts));
    var classified :=
      if !retry && !facts.cancellationRequested && facts.failure.None?
      then facts.(failure := TerminationFailure(facts.reaped)) else facts;
    if outcome.DiagnosticsPreserved? then classified.(diagnosticsPreserved := true)
    else if !retry && classified.failure.None? then classified.(failure := Some(DiagnosticsFailure))
    else classified
  }

  function DiagnosticsPlan(m: Machine, outcome: Outcome): Plan {
    var attempt := SaturatingIncrement(m.facts.diagnosticAttempts);
    var retry := outcome.DiagnosticsFailed? && attempt < m.limits.diagnostics;
    var facts := DiagnosticsFacts(m.facts, outcome, retry);
    if retry then Go(DiagnosticsPending, Some(PreserveDiagnostics), facts, true)
    else if m.facts.cleanupUnproven then
      Go(if m.facts.cancellationRequested then Cancelled else Failed, None, facts, true)
    else if !m.facts.childSpawned || m.facts.cancellationRequested || m.facts.failure.Some? then
      Go(ReleasePending, Some(ReleaseResources), facts, true)
    else
      match m.facts.reaped
      case None => Refuse
      case Some(termination) =>
        if termination == ExitCode(0) then Go(OutputValidationPending, Some(ValidateOutput), facts, true)
        else Go(ReleasePending, Some(ReleaseResources), facts, true)
  }

  function ValidationPlan(m: Machine, outcome: Outcome): Plan {
    var failure :=
      match outcome
      case OutputInvalid => Some(OutputInvalidFailure)
      case OutputValidationFailed => Some(OutputValidationFailure)
      case _ => m.facts.failure;
    Go(ReleasePending, Some(ReleaseResources), m.facts.(failure := failure), true)
  }

  function ReleasePlan(m: Machine, outcome: Outcome): Plan {
    var attempt := SaturatingIncrement(m.facts.releaseAttempts);
    var failed := outcome.ResourceReleaseFailed?;
    var released := m.facts.resourcesReleased || outcome.ResourcesReleased?;
    var facts := m.facts.(releaseAttempts := attempt, resourcesReleased := released);
    if failed && attempt < m.limits.release then Go(ReleasePending, Some(ReleaseResources), facts, true)
    else
      Go(if facts.cancellationRequested then Cancelled
         else if failed || facts.failure.Some? then Failed
         else Exited,
         None, if failed then facts.(failure := Some(ReleaseFailure)) else facts, true)
  }

  function CompletionPlan(m: Machine, effect: Effect, outcome: Outcome): Plan {
    match effect
    case SpawnProcess => SpawnPlan(m, outcome)
    case RequestGracefulStop => GracefulPlan(m, outcome)
    case ForceKillProcessTree => ForcedKillPlan(m, outcome)
    case ReapDirectChild => ReapPlan(m, outcome)
    case PreserveDiagnostics => DiagnosticsPlan(m, outcome)
    case ValidateOutput => ValidationPlan(m, outcome)
    case ReleaseResources => ReleasePlan(m, outcome)
  }

  function PlanFor(m: Machine, action: Action): Plan {
    match action
    case Start =>
      if !m.state.Prepared? || m.pending.Some? then Refuse else Go(Spawning, Some(SpawnProcess), m.facts, true)
    case Cancel => CancelPlan(m)
    case ChildExitObserved => ExitObservedPlan(m)
    case GracePeriodExpired => GraceExpiredPlan(m)
    case EffectCompleted(request, outcome) => CompletionPlan(m, request.effect, outcome)
  }

  /** Correlation is checked before anything else: only the exact pending request can complete. */
  function Correlate(m: Machine, action: Action): Option<Error> {
    match action
    case EffectCompleted(request, outcome) =>
      if m.pending != Some(request) then Some(UnexpectedEffectCompletion(request, m.pending))
      else if !OutcomeMatches(request.effect, outcome) then Some(OutcomeDoesNotMatchEffect(request.effect, outcome))
      else None
    case _ => None
  }

  function Record(m: Machine, action: Action, plan: Plan): Machine
    requires plan.Go?
  {
    var issued := if plan.effect.Some? then Some(Request(m.instanceId, m.nextGeneration, plan.effect.value)) else None;
    m.(state := plan.next, facts := plan.facts,
    pending := if plan.settles then issued else m.pending,
    nextGeneration := m.nextGeneration + if plan.effect.Some? then 1 else 0,
    trace := m.trace + [Transition(m.state, action, plan.next, issued)])
  }

  /** Carries a plan out unless the trace is full or the generations are used up. */
  function Settle(m: Machine, action: Action, plan: Plan): (Result<Transition, Error>, Machine) {
    if plan.Refuse? then (Err(InvalidTransition(m.state, action)), m)
    else if |m.trace| >= m.traceLimit then (Err(TraceLimitReached(m.traceLimit)), m)
    else if plan.effect.Some? && m.nextGeneration == U64_MAX then (Err(EffectGenerationExhausted), m)
    else
      var m' := Record(m, action, plan);
      (Ok(m'.trace[|m.trace|]), m')
  }

  function Step(m: Machine, action: Action): (Result<Transition, Error>, Machine) {
    var mismatch := Correlate(m, action);
    if mismatch.Some? then (Err(mismatch.value), m) else Settle(m, action, PlanFor(m, action))
  }

  function Run(m: Machine, actions: seq<Action>): Machine
    decreases |actions|
  {
    if actions == [] then m else Run(Step(m, actions[0]).1, actions[1..])
  }

  // ---------------------------------------------------------------------------
  // The invariant

  /** The effect a phase waits for. */
  function Awaited(state: State): Option<Effect> {
    match state
    case Spawning => Some(SpawnProcess)
    case GracefulStopPending => Some(RequestGracefulStop)
    case ForcedKillPending => Some(ForceKillProcessTree)
    case ReapPending => Some(ReapDirectChild)
    case DiagnosticsPending => Some(PreserveDiagnostics)
    case OutputValidationPending => Some(ValidateOutput)
    case ReleasePending => Some(ReleaseResources)
    case _ => None
  }

  ghost predicate PendingOk(m: Machine) {
    match Awaited(m.state)
    case None => m.pending.None?
    case Some(effect) =>
      m.pending.Some? && m.pending.value.instanceId == m.instanceId && m.pending.value.effect == effect
      && m.pending.value.generation + 1 == m.nextGeneration
  }

  /** Attempts already settled in the phases from kill to release. */
  ghost predicate AttemptsOk(state: State, limits: Limits, f: Facts) {
    && f.forceKillAttempts <= limits.forceKill && f.reapAttempts <= limits.reap
    && f.diagnosticAttempts <= limits.diagnostics && f.releaseAttempts <= limits.release
    && (state.ForcedKillPending? ==> f.forceKillAttempts < limits.forceKill)
    && (state.ReapPending? ==> f.reapAttempts < limits.reap)
    && (state.DiagnosticsPending? ==> f.diagnosticAttempts < limits.diagnostics)
    && (state.ReleasePending? ==> f.releaseAttempts < limits.release)
    && (BeforeKill(state) || state.ForcedKillPending? ==> f.reapAttempts == 0)
    && (BeforeKill(state) ==> f.forceKillAttempts == 0)
    && (BeforeDiagnostics(state) ==> f.diagnosticAttempts == 0)
    && (BeforeDiagnostics(state) || state.DiagnosticsPending? || state.OutputValidationPending? ==>
        f.releaseAttempts == 0)
  }

  predicate BeforeKill(state: State) {
    state.Prepared? || state.Spawning? || state.Running? || state.GracefulStopPending? || state.GracefulExitPending?
  }

  predicate BeforeDiagnostics(state: State) {
    BeforeKill(state) || state.ForcedKillPending? || state.ReapPending?
  }

  /** What each phase knows about the child, the failure and the preserved evidence. */
  ghost predicate FactsOk(state: State, f: Facts) {
    match state
    case Prepared => f == NO_FACTS
    case Spawning => !f.childSpawned && !f.exitObserved && Untouched(f)
    case DiagnosticsPending =>
      && !f.diagnosticsPreserved && !f.resourcesReleased
      && (f.childSpawned
          ==> (f.reaped.Some? && f.failure.None? && !f.cleanupUnproven)
              || (f.reaped.None? && f.failure.Some? && f.cleanupUnproven))
      && (!f.childSpawned ==> f.reaped.None? && f.failure.Some? && !f.cleanupUnproven)
    case OutputValidationPending =>
      && f.childSpawned && f.reaped == Some(ExitCode(0)) && !f.cleanupUnproven && !f.resourcesReleased
      && (f.failure.None? ==> f.diagnosticsPreserved)
    case ReleasePending =>
      && (f.childSpawned ==> f.reaped.Some?) && !f.cleanupUnproven && !f.resourcesReleased
      && CleanSoFar(f)
    case Exited => !f.cancellationRequested && f.failure.None? && f.resourcesReleased && CleanSoFar(f)
    case Failed => !f.cancellationRequested
    case Cancelled => f.cancellationRequested
    case _ => f.childSpawned && Untouched(f)
  }

  ghost predicate Untouched(f: Facts) {
    f.reaped.None? && f.failure.None? && !f.cleanupUnproven && !f.diagnosticsPreserved && !f.resourcesReleased
  }

  ghost predicate CleanSoFar(f: Facts) {
    !f.cancellationRequested && f.failure.None? ==>
      f.childSpawned && f.reaped == Some(ExitCode(0)) && f.diagnosticsPreserved
  }

  /**
   How many effects can still be issued. Every issued effect costs one, so this bounds the
   whole run.
   */
  function Budget(state: State, limits: Limits, f: Facts): int {
    var release := limits.release - f.releaseAttempts;
    var diagnostics := limits.diagnostics - f.diagnosticAttempts + 1 + release;
    var reap := limits.reap - f.reapAttempts + diagnostics;
    var kill := limits.forceKill - f.forceKillAttempts + reap;
    match state
    case Prepared => 2 + kill
    case Spawning => 1 + kill
    case Running => 1 + kill
    case GracefulStopPending => kill
    case GracefulExitPending => kill
    case ForcedKillPending => kill - 1
    case ReapPending => reap - 1
    case DiagnosticsPending => diagnostics - 1
    case OutputValidationPending => release
    case ReleasePending => release - 1
    case _ => 0
  }

  function MaximumEffects(limits: Limits): nat {
    3 + limits.forceKill + limits.reap + limits.diagnostics + limits.release
  }

  ghost predicate Inv(m: Machine) {
    && LimitsOk(m.limits)
    && PendingOk(m)
    && AttemptsOk(m.state, m.limits, m.facts)
    && FactsOk(m.state, m.facts)
    && 1 <= m.nextGeneration
    && m.nextGeneration - 1 + Budget(m.state, m.limits, m.facts) <= MaximumEffects(m.limits)
  }

  // ---------------------------------------------------------------------------
  // Every step keeps the invariant

  /** Everything a plan must satisfy for the recorded machine to be in order again. */
  ghost predicate PlanOk(m: Machine, plan: Plan)
    requires plan.Go?
  {
    && AttemptsOk(plan.next, m.limits, plan.facts)
    && FactsOk(plan.next, plan.facts)
    && (plan.settles ==> plan.effect == Awaited(plan.next))
    && (!plan.settles ==> plan.effect.None? && plan.next == m.state)
    && Budget(plan.next, m.limits, plan.facts) + (if plan.effect.Some? then 1 else 0)
       <= Budget(m.state, m.limits, m.facts)
  }

  lemma BudgetNonNegative(state: State, limits: Limits, f: Facts)
    requires LimitsOk(limits) && AttemptsOk(state, limits, f)
    ensures Budget(state, limits, f) >= 0
  {
  }

  lemma SpawnPlanOk(m: Machine, outcome: Outcome)
    requires Inv(m) && m.state.Spawning? && OutcomeMatches(SpawnProcess, outcome)
    ensures SpawnPlan(m, outcome).Go? && PlanOk(m, SpawnPlan(m, outcome))
  {
  }

  lemma GracefulPlanOk(m: Machine, outcome: Outcome)
    requires Inv(m) && m.state.GracefulStopPending? && OutcomeMatches(RequestGracefulStop, outcome)
    ensures GracefulPlan(m, outcome).Go? && PlanOk(m, GracefulPlan(m, outcome))
  {
  }

  lemma ForcedKillPlanOk(m: Machine, outcome: Outcome)
    requires Inv(m) && m.state.ForcedKillPending? && OutcomeMatches(ForceKillProcessTree, outcome)
    ensures ForcedKillPlan(m, outcome).Go? && PlanOk(m, ForcedKillPlan(m, outcome))
  {
  }

  lemma ReapPlanOk(m: Machine, outcome: Outcome)
    requires Inv(m) && m.state.ReapPending? && OutcomeMatches(ReapDirectChild, outcome)
    ensures ReapPlan(m, outcome).Go? && PlanOk(m, ReapPlan(m, outcome))
  {
  }

  lemma DiagnosticsPlanOk(m: Machine, outcome: Outcome)
    requires Inv(m) && m.state.DiagnosticsPending? && OutcomeMatches(PreserveDiagnostics, outcome)
    ensures DiagnosticsPlan(m, outcome).Go? && PlanOk(m, DiagnosticsPlan(m, outcome))
  {
    var attempt := SaturatingIncrement(m.facts.diagnosticAttempts);
    var retry := outcome.DiagnosticsFailed? && attempt < m.limits.diagnostics;
    if retry {
      assert DiagnosticsPlan(m, outcome).next.DiagnosticsPending?;
    } else if m.facts.cleanupUnproven {
      assert DiagnosticsPlan(m, outcome).effect.None?;
    } else if !m.facts.childSpawned || m.facts.cancellationRequested {
      assert DiagnosticsPlan(m, outcome).next.ReleasePending?;
    } else {
      assert m.facts.reaped.Some? && m.facts.failure.None?;
    }
  }

  lemma ValidationPlanOk(m: Machine, outcome: Outcome)
    requires Inv(m) && m.state.OutputValidationPending? && OutcomeMatches(ValidateOutput, outcome)
    ensures ValidationPlan(m, outcome).Go? && PlanOk(m, ValidationPlan(m, outcome))
  {
  }

  lemma ReleasePlanOk(m: Machine, outcome: Outcome)
    requires Inv(m) && m.state.ReleasePending? && OutcomeMatches(ReleaseResources, outcome)
    ensures ReleasePlan(m, outcome).Go? && PlanOk(m, ReleasePlan(m, outcome))
  {
  }

  lemma CancelPlanOk(m: Machine)
    requires Inv(m) && CancelPlan(m).Go?
    ensures PlanOk(m, CancelPlan(m))
  {
  }

  lemma ExitObservedPlanOk(m: Machine)
    requires Inv(m) && ExitObservedPlan(m).Go?
    ensures PlanOk(m, ExitObservedPlan(m))
  {
  }

  lemma GraceExpiredPlanOk(m: Machine)
    requires Inv(m) && GraceExpiredPlan(m).Go?
    ensures PlanOk(m, GraceExpiredPlan(m))
  {
  }

  lemma StartPlanOk(m: Machine)
    requires Inv(m) && PlanFor(m, Start).Go?
    ensures PlanOk(m, PlanFor(m, Start))
  {
  }

  lemma ObservationPlanOk(m: Machine, action: Action)
    requires Inv(m) && !action.EffectCompleted? && PlanFor(m, action).Go?
    ensures PlanOk(m, PlanFor(m, action))
  {
    hide Inv, PlanOk, CancelPlan, ExitObservedPlan, GraceExpiredPlan;
    match action
    case Start => StartPlanOk(m);
    case Cancel => CancelPlanOk(m);
    case ChildExitObserved => ExitObservedPlanOk(m);
    case GracePeriodExpired => GraceExpiredPlanOk(m);
  }

  /** A correlated completion is never refused by the phase, only by the trace bound. */
  lemma CompletionPlanOk(m: Machine, request: Request, outcome: Outcome)
    requires Inv(m) && m.pending == Some(request) && OutcomeMatches(request.effect, outcome)
    ensures CompletionPlan(m, request.effect, outcome).Go?
    ensures PlanOk(m, CompletionPlan(m, request.effect, outcome))
  {
    assert Awaited(m.state) == Some(request.effect);
    hide Inv, PlanOk, OutcomeMatches, SpawnPlan, GracefulPlan, ForcedKillPlan, ReapPlan, DiagnosticsPlan, ReleasePlan;
    match request.effect
    case SpawnProcess => SpawnPlanOk(m, outcome);
    case RequestGracefulStop => GracefulPlanOk(m, outcome);
    case ForceKillProcessTree => ForcedKillPlanOk(m, outcome);
    case ReapDirectChild => ReapPlanOk(m, outcome);
    case PreserveDiagnostics => DiagnosticsPlanOk(m, outcome);
    case ValidateOutput => ValidationPlanOk(m, outcome);
    case ReleaseResources => ReleasePlanOk(m, outcome);
  }

  lemma RecordKeeps(m: Machine, action: Action, plan: Plan)
    requires Inv(m) && plan.Go? && PlanOk(m, plan)
    ensures Inv(Record(m, action, plan))
  {
    hide AttemptsOk, FactsOk, Budget;
  }

  /**
   Every step keeps the invariant, a refused step changes nothing, generations never run
   out, and a completion that is correlated with the pending effect is refused only when
   the trace is full.
   */
  lemma StepKeeps(m: Machine, action: Action)
    requires Inv(m)
    ensures Inv(Step(m, action).1)
    ensures Step(m, action).0.Err? ==> Step(m, action).1 == m
    ensures Step(m, action).0 != Err(EffectGenerationExhausted)
    ensures action.EffectCompleted? && Correlate(m, action).None? ==>
              (Step(m, action).0.Ok? <==> |m.trace| < m.traceLimit)
    ensures Step(m, action).0.Ok? ==> PlanFor(m, action).Go? && PlanOk(m, PlanFor(m, action))
    ensures Step(m, action).0.Ok? ==> Step(m, action).1 == Record(m, action, PlanFor(m, action))
  {
    GenerationBounded(m);
    if Correlate(m, action).None? {
      if action.EffectCompleted? {
        CompletionPlanOk(m, action.request, action.outcome);
      } else if PlanFor(m, action).Go? {
        ObservationPlanOk(m, action);
      }
      if PlanFor(m, action).Go? {
        hide Inv, PlanOk, CompletionPlan, CancelPlan, ExitObservedPlan, GraceExpiredPlan;
        RecordKeeps(m, action, PlanFor(m, action));
      }
    }
  }

  lemma GenerationBounded(m: Machine)
    requires Inv(m)
    ensures m.nextGeneration <= 1 + MaximumEffects(m.limits) < U64_MAX
  {
    BudgetNonNegative(m.state, m.limits, m.facts);
  }

  /** Outstanding work: effects still to be issued, plus the one awaiting its outcome. */
  function Work(m: Machine): int {
    Budget(m.state, m.limits, m.facts) + if m.pending.Some? then 1 else 0
  }

  /** The rank: an accepted completion uses up work, and no other input adds any. */
  lemma CompletionUsesUpWork(m: Machine, action: Action)
    requires Inv(m) && Step(m, action).0.Ok?
    ensures 0 <= Work(Step(m, action).1)
    ensures action.EffectCompleted? ==> Work(Step(m, action).1) < Work(m)
    ensures !action.EffectCompleted? ==> Work(Step(m, action).1) <= Work(m)
  {
    StepKeeps(m, action);
    var m' := Step(m, action).1;
    BudgetNonNegative(m'.state, m'.limits, m'.facts);
    hide Step, Inv, AttemptsOk, FactsOk, Budget, PlanFor;
  }

  // ---------------------------------------------------------------------------
  // History

  predicate IsMilestone(outcome: Outcome) {
    || outcome.Spawned? || (outcome.Reap? && outcome.reap.Reaped?) || outcome.DiagnosticsPreserved?
    || outcome.OutputValidated? || outcome.ResourcesReleased?
  }

  function MilestoneOf(record: Transition): seq<Outcome> {
    if record.action.EffectCompleted? && IsMilestone(record.action.outcome) then [record.action.outcome] else []
  }

  /** The successful completions of a run, in the order they were accepted. */
  function Milestones(trace: seq<Transition>): seq<Outcome> {
    if trace == [] then [] else Milestones(trace[..|trace| - 1]) + MilestoneOf(trace[|trace| - 1])
  }

  predicate CancelSeen(trace: seq<Transition>) {
    exists i :: 0 <= i < |trace| && trace[i].action.Cancel?
  }

  predicate ReapSeen(milestones: seq<Outcome>) {
    exists i :: 0 <= i < |milestones| && milestones[i].Reap?
  }

  function If(present: bool, outcome: Outcome): seq<Outcome> {
    if present then [outcome] else []
  }

  /** The milestones that these facts stand for, in causal order. */
  function Evidence(f: Facts, validated: bool): seq<Outcome> {
    InOrder(f.childSpawned, f.reaped, f.diagnosticsPreserved, validated, f.resourcesReleased)
  }

  function InOrder(spawned: bool, reaped: Option<Termination>, preserved: bool, validated: bool, released: bool)
    : seq<Outcome>
  {
    If(spawned, Spawned) + (if reaped.Some? then [Reap(Reaped(reaped.value))] else [])
    + If(preserved, DiagnosticsPreserved) + If(validated, OutputValidated) + If(released, ResourcesReleased)
  }

  ghost predicate Remembers(m: Machine, validated: bool) {
    && Milestones(m.trace) == Evidence(m.facts, validated)
    && (validated ==> m.state.ReleasePending? || Terminal(m.state))
    && ((m.state.ReleasePending? || m.state.Exited?) && !m.facts.cancellationRequested && m.facts.failure.None? ==>
        validated)
    && (m.facts.cancellationRequested <==> CancelSeen(m.trace))
  }

  /** The facts are exactly what the trace shows. */
  ghost predicate HistoryOk(m: Machine) {
    exists validated :: Remembers(m, validated)
  }

  /** What must be true of the trace up to and including a record that issues an effect. */
  ghost predicate SafeRecord(trace: seq<Transition>, i: nat)
    requires i < |trace|
  {
    var soFar := trace[..i + 1];
    match trace[i].issued
    case None => true
    case Some(request) =>
      match request.effect
      case ReleaseResources => Spawned in Milestones(soFar) ==> ReapSeen(Milestones(soFar))
      case RequestGracefulStop => !ReapSeen(Milestones(soFar))
      case ForceKillProcessTree => !ReapSeen(Milestones(soFar))
      case ReapDirectChild => !ReapSeen(Milestones(soFar))
      case ValidateOutput => !CancelSeen(soFar)
      case _ => true
  }

  ghost predicate SafeTrace(trace: seq<Transition>) {
    forall i :: 0 <= i < |trace| ==> SafeRecord(trace, i)
  }

  /** Effects are numbered in issue order without gaps. */
  function IssuedCount(trace: seq<Transition>): nat {
    if trace == [] then 0
    else IssuedCount(trace[..|trace| - 1]) + if trace[|trace| - 1].issued.Some? then 1 else 0
  }

  lemma EvidenceFacts(f: Facts, validated: bool)
    ensures Spawned in Evidence(f, validated) <==> f.childSpawned
    ensures ReapSeen(Evidence(f, validated)) <==> f.reaped.Some?
  {
    var e := Evidence(f, validated);
    if f.childSpawned { assert e[0] == Spawned; }
    if f.reaped.Some? { assert e[if f.childSpawned then 1 else 0].Reap?; }
  }

  lemma MilestonesAppend(trace: seq<Transition>, record: Transition)
    ensures Milestones(trace + [record]) == Milestones(trace) + MilestoneOf(record)
    ensures CancelSeen(trace + [record]) <==> CancelSeen(trace) || record.action.Cancel?
    ensures IssuedCount(trace + [record]) == IssuedCount(trace) + if record.issued.Some? then 1 else 0
  {
    var longer := trace + [record];
    assert longer[..|trace|] == trace;
    if CancelSeen(trace) {
      var i :| 0 <= i < |trace| && trace[i].action.Cancel?;
      assert longer[i].action.Cancel?;
    }
    if record.action.Cancel? { assert longer[|trace|].action.Cancel?; }
    if CancelSeen(longer) && !record.action.Cancel? {
      var i :| 0 <= i < |longer| && longer[i].action.Cancel?;
      assert trace[i].action.Cancel?;
    }
  }

  lemma SafeAppend(trace: seq<Transition>, record: Transition)
    requires SafeTrace(trace) && SafeRecord(trace + [record], |trace|)
    ensures SafeTrace(trace + [record])
  {
    var longer := trace + [record];
    forall i | 0 <= i < |trace| ensures SafeRecord(longer, i) {
      assert SafeRecord(trace, i);
      assert longer[..i + 1] == trace[..i + 1];
    }
  }

  lemma SpawnedLast()
    ensures InOrder(true, None, false, false, false) == InOrder(false, None, false, false, false) + [Spawned]
  {
  }

  lemma ReapLast(spawned: bool, t: Termination)
    ensures InOrder(spawned, Some(t), false, false, false)
         == InOrder(spawned, None, false, false, false) + [Reap(Reaped(t))]
  {
  }

  lemma PreservedLast(spawned: bool, reaped: Option<Termination>)
    ensures InOrder(spawned, reaped, true, false, false)
         == InOrder(spawned, reaped, false, false, false) + [DiagnosticsPreserved]
  {
  }

  lemma ValidatedLast(spawned: bool, reaped: Option<Termination>, preserved: bool)
    ensures InOrder(spawned, reaped, preserved, true, false)
         == InOrder(spawned, reaped, preserved, false, false) + [OutputValidated]
  {
  }

  lemma ReleasedLast(spawned: bool, reaped: Option<Termination>, preserved: bool, validated: bool)
    ensures InOrder(spawned, reaped, preserved, validated, true)
         == InOrder(spawned, reaped, preserved, validated, false) + [ResourcesReleased]
  {
  }

  function ValidatedAfter(validated: bool, action: Action): bool {
    validated || (action.EffectCompleted? && action.outcome.OutputValidated?)
  }

  /** The step adds exactly its own piece of evidence, at the end. */
  ghost predicate Extends(m: Machine, action: Action, validated: bool) {
    var plan := PlanFor(m, action);
    var validated' := ValidatedAfter(validated, action);
    plan.Go? ==>
      && Evidence(plan.facts, validated')
         == Evidence(m.facts, validated) + MilestoneOf(Transition(m.state, action, plan.next, None))
      && (validated' ==> plan.next.ReleasePending? || Terminal(plan.next))
      && ((plan.next.ReleasePending? || plan.next.Exited?) && !plan.facts.cancellationRequested
          && plan.facts.failure.None?
          ==> validated')
      && (plan.facts.cancellationRequested <==> m.facts.cancellationRequested || action.Cancel?)
  }

  ghost predicate Ready(m: Machine, action: Action, validated: bool) {
    Inv(m) && Remembers(m, validated) && Correlate(m, action).None?
  }

  lemma ObservationExtends(m: Machine, action: Action, validated: bool)
    requires Ready(m, action, validated) && !action.EffectCompleted?
    ensures Extends(m, action, validated)
  {
    hide InOrder;
    assert Evidence(m.facts, validated) + [] == Evidence(m.facts, validated);
  }

  lemma SpawnExtends(m: Machine, action: Action, validated: bool)
    requires Ready(m, action, validated) && action.EffectCompleted? && action.request.effect.SpawnProcess?
    ensures Extends(m, action, validated)
  {
    SpawnedLast();
    hide InOrder;
    assert Evidence(m.facts, validated) + [] == Evidence(m.facts, validated);
  }

  lemma StopOrKillExtends(m: Machine, action: Action, validated: bool)
    requires Ready(m, action, validated) && action.EffectCompleted?
    requires action.request.effect.RequestGracefulStop? || action.request.effect.ForceKillProcessTree?
    ensures Extends(m, action, validated)
  {
    hide InOrder;
    assert Evidence(m.facts, validated) + [] == Evidence(m.facts, validated);
  }

  lemma ReapExtends(m: Machine, action: Action, validated: bool)
    requires Ready(m, action, validated) && action.EffectCompleted? && action.request.effect.ReapDirectChild?
    ensures Extends(m, action, validated)
  {
    hide Budget, AttemptsOk;
    assert action.outcome.Reap? && m.state.ReapPending?;
    if action.outcome.reap.Reaped? {
      ReapLast(m.facts.childSpawned, action.outcome.reap.termination);
      hide InOrder;
      assert Extends(m, action, validated);
    } else {
      hide InOrder;
      assert Evidence(m.facts, validated) + [] == Evidence(m.facts, validated);
    }
  }

  lemma DiagnosticsExtends(m: Machine, action: Action, validated: bool)
    requires Ready(m, action, validated) && action.EffectCompleted? && action.request.effect.PreserveDiagnostics?
    ensures Extends(m, action, validated)
  {
    PreservedLast(m.facts.childSpawned, m.facts.reaped);
    hide InOrder;
    assert Evidence(m.facts, validated) + [] == Evidence(m.facts, validated);
    assert !validated;
    assert DiagnosticsPlan(m, action.outcome).Go? ==>
        Evidence(DiagnosticsPlan(m, action.outcome).facts, false)
        == Evidence(m.facts, false) + If(action.outcome.DiagnosticsPreserved?, DiagnosticsPreserved);
  }

  lemma ValidationExtends(m: Machine, action: Action, validated: bool)
    requires Ready(m, action, validated) && action.EffectCompleted? && action.request.effect.ValidateOutput?
    ensures Extends(m, action, validated)
  {
    ValidatedLast(m.facts.childSpawned, m.facts.reaped, m.facts.diagnosticsPreserved);
    hide InOrder;
    assert Evidence(m.facts, validated) + [] == Evidence(m.facts, validated);
  }

  lemma ReleaseExtends(m: Machine, action: Action, validated: bool)
    requires Ready(m, action, validated) && action.EffectCompleted? && action.request.effect.ReleaseResources?
    ensures Extends(m, action, validated)
  {
    ReleasedLast(m.facts.childSpawned, m.facts.reaped, m.facts.diagnosticsPreserved, validated);
    hide InOrder;
    assert Evidence(m.facts, validated) + [] == Evidence(m.facts, validated);
  }

  lemma StepExtends(m: Machine, action: Action, validated: bool)
    requires Ready(m, action, validated)
    ensures Extends(m, action, validated)
  {
    hide Ready, Extends;
    if !action.EffectCompleted? {
      ObservationExtends(m, action, validated);
    } else {
      match action.request.effect
      case SpawnProcess => SpawnExtends(m, action, validated);
      case RequestGracefulStop => StopOrKillExtends(m, action, validated);
      case ForceKillProcessTree => StopOrKillExtends(m, action, validated);
      case ReapDirectChild => ReapExtends(m, action, validated);
      case PreserveDiagnostics => DiagnosticsExtends(m, action, validated);
      case ValidateOutput => ValidationExtends(m, action, validated);
      case ReleaseResources => ReleaseExtends(m, action, validated);
    }
  }

  // ---------------------------------------------------------------------------
  // Main results

  ghost predicate Whole(m: Machine) {
    Inv(m) && HistoryOk(m) && SafeTrace(m.trace) && IssuedCount(m.trace) + 1 == m.nextGeneration
  }

  /** An effect is issued only in a phase whose facts make it safe. */
  lemma IssueIsSafe(m: Machine, action: Action)
    requires Inv(m) && Step(m, action).0.Ok? && PlanFor(m, action).effect.Some?
    ensures var plan := PlanFor(m, action);
            && (plan.effect.value.ReleaseResources? ==> (plan.facts.childSpawned ==> plan.facts.reaped.Some?))
            && (plan.effect.value.RequestGracefulStop? ==> plan.facts.reaped.None?)
            && (plan.effect.value.ForceKillProcessTree? ==> plan.facts.reaped.None?)
            && (plan.effect.value.ReapDirectChild? ==> plan.facts.reaped.None?)
            && (plan.effect.value.ValidateOutput? ==> !plan.facts.cancellationRequested)
  {
    StepKeeps(m, action);
    var plan := PlanFor(m, action);
    assert plan.settles && plan.effect == Awaited(plan.next);
    if plan.effect.value.ValidateOutput? {
      OnlyDiagnosticsValidates(m, action);
    } else {
      hide PlanFor, Step, Inv, AttemptsOk, Budget;
    }
  }

  lemma OnlyDiagnosticsValidates(m: Machine, action: Action)
    requires Inv(m) && Step(m, action).0.Ok?
    requires PlanFor(m, action).effect == Some(ValidateOutput)
    ensures !PlanFor(m, action).facts.cancellationRequested
  {
  }

  lemma StepRemembers(m: Machine, action: Action)
    requires Inv(m) && HistoryOk(m) && Step(m, action).0.Ok?
    ensures HistoryOk(Step(m, action).1)
  {
    StepKeeps(m, action);
    var validated :| Remembers(m, validated);
    assert Correlate(m, action).None?;
    StepExtends(m, action, validated);
    var m' := Step(m, action).1;
    var record := m'.trace[|m.trace|];
    assert m'.trace == m.trace + [record];
    MilestonesAppend(m.trace, record);
    hide Inv, Evidence, Milestones, CancelSeen, PlanFor, Correlate;
    assert Remembers(m', ValidatedAfter(validated, action));
  }

  lemma StepIsSafe(m: Machine, action: Action)
    requires Whole(m) && Step(m, action).0.Ok?
    ensures SafeTrace(Step(m, action).1.trace)
    ensures IssuedCount(Step(m, action).1.trace) + 1 == Step(m, action).1.nextGeneration
  {
    StepKeeps(m, action);
    StepRemembers(m, action);
    var m' := Step(m, action).1;
    var plan := PlanFor(m, action);
    var record := m'.trace[|m.trace|];
    assert m'.trace == m.trace + [record];
    MilestonesAppend(m.trace, record);
    var validated :| Remembers(m', validated);
    EvidenceFacts(m'.facts, validated);
    if plan.effect.Some? { IssueIsSafe(m, action); }
    hide Inv, PlanFor, Step, Milestones, CancelSeen, ReapSeen, Evidence, SafeTrace, HistoryOk;
    assert m'.trace[..|m.trace| + 1] == m'.trace;
    assert SafeRecord(m'.trace, |m.trace|);
    SafeAppend(m.trace, record);
  }

  lemma {:induction false} RunKeepsWhole(m: Machine, actions: seq<Action>)
    requires Whole(m)
    ensures Whole(Run(m, actions))
    decreases |actions|
  {
    if actions != [] {
      StepKeeps(m, actions[0]);
      if Step(m, actions[0]).0.Ok? {
        StepRemembers(m, actions[0]);
        StepIsSafe(m, actions[0]);
      }
      hide Step, Inv, HistoryOk, SafeTrace, IssuedCount;
      RunKeepsWhole(Step(m, actions[0]).1, actions[1..]);
    }
  }

  lemma NewIsWhole(instanceId: nat, limits: Limits, traceLimit: nat)
    requires LimitsOk(limits)
    ensures Whole(New(instanceId, limits, traceLimit))
  {
    assert Remembers(New(instanceId, limits, traceLimit), false);
  }

  /**
   Over every run, whatever mixture of inputs, stale or mismatched completions and full
   traces it contains:
   - resources are never released while a spawned child is unreaped, no stop, kill or reap
     is issued after a successful reap, and no output is validated after a cancellation;
   - `Exited` means exactly these completions, in this order: spawned, reaped with exit
     code zero, diagnostics preserved, output validated, resources released;
   - once cancellation is recorded the only terminal state is `Cancelled`.
   */
  lemma SupervisorIsSafe(instanceId: nat, limits: Limits, traceLimit: nat, actions: seq<Action>)
    requires LimitsOk(limits)
    ensures var m := Run(New(instanceId, limits, traceLimit), actions);
            && SafeTrace(m.trace)
            && (m.state.Exited? ==>
                  Milestones(m.trace) ==
                  [Spawned, Reap(Reaped(ExitCode(0))), DiagnosticsPreserved, OutputValidated, ResourcesReleased])
            && (Terminal(m.state) && CancelSeen(m.trace) ==> m.state.Cancelled?)
            && (m.state.Cancelled? ==> CancelSeen(m.trace))
  {
    NewIsWhole(instanceId, limits, traceLimit);
    RunKeepsWhole(New(instanceId, limits, traceLimit), actions);
    var m := Run(New(instanceId, limits, traceLimit), actions);
    var validated :| Remembers(m, validated);
    if m.state.Exited? {
      assert validated;
      var f := m.facts;
      assert f.childSpawned && f.reaped == Some(ExitCode(0)) && f.diagnosticsPreserved && f.resourcesReleased;
      assert InOrder(true, Some(ExitCode(0)), true, true, true)
          == [Spawned, Reap(Reaped(ExitCode(0))), DiagnosticsPreserved, OutputValidated, ResourcesReleased];
    }
  }

  /**
   Every run issues at most 3 effects plus the four attempt ceilings, so generations never
   run out, and no attempt counter passes its ceiling.
   */
  lemma EffectsAreBounded(instanceId: nat, limits: Limits, traceLimit: nat, actions: seq<Action>)
    requires LimitsOk(limits)
    ensures var m := Run(New(instanceId, limits, traceLimit), actions);
            && IssuedCount(m.trace) <= MaximumEffects(limits)
            && m.nextGeneration == IssuedCount(m.trace) + 1 < U64_MAX
            && m.facts.forceKillAttempts <= limits.forceKill && m.facts.reapAttempts <= limits.reap
            && m.facts.diagnosticAttempts <= limits.diagnostics && m.facts.releaseAttempts <= limits.release
  {
    NewIsWhole(instanceId, limits, traceLimit);
    RunKeepsWhole(New(instanceId, limits, traceLimit), actions);
    RunKeepsLimits(New(instanceId, limits, traceLimit), actions);
    GenerationBounded(Run(New(instanceId, limits, traceLimit), actions));
  }

  lemma {:induction false} RunKeepsLimits(m: Machine, actions: seq<Action>)
    ensures Run(m, actions).limits == m.limits
    decreases |actions|
  {
    if actions != [] { RunKeepsLimits(Step(m, actions[0]).1, actions[1..]); }
  }

  // ---------------------------------------------------------------------------
  // Attempt counters

  /** The counter that a completion of this effect increments; spawn, stop and validation have none. */
  function Attempts(f: Facts, effect: Effect): nat {
    match effect
    case ForceKillProcessTree => f.forceKillAttempts
    case ReapDirectChild => f.reapAttempts
    case PreserveDiagnostics => f.diagnosticAttempts
    case ReleaseResources => f.releaseAttempts
    case _ => 0
  }

  predicate IsCounted(effect: Effect) {
    effect.ForceKillProcessTree? || effect.ReapDirectChild? || effect.PreserveDiagnostics? || effect.ReleaseResources?
  }

  predicate Completes(action: Action, effect: Effect) {
    action.EffectCompleted? && action.request.effect == effect
  }

  /** How many completions of an effect a run has accepted. */
  function Completions(trace: seq<Transition>, effect: Effect): nat {
    if trace == [] then 0
    else Completions(trace[..|trace| - 1], effect) + if Completes(trace[|trace| - 1].action, effect) then 1 else 0
  }

  /** The counter an outstanding effect will increment is below 255, so the increment is exact. */
  lemma IncrementIsExact(m: Machine)
    requires Inv(m) && m.pending.Some?
    ensures var k := Attempts(m.facts, m.pending.value.effect); SaturatingIncrement(k) == k + 1
  {
    hide FactsOk, Budget;
  }

  function After(before: nat, counts: bool): nat {
    if counts then SaturatingIncrement(before) else before
  }

  /** The facts after a completion of `effect`: its own counter incremented, the others as before. */
  predicate CountedOnce(f: Facts, f': Facts, effect: Effect) {
    && f'.forceKillAttempts == After(f.forceKillAttempts, effect.ForceKillProcessTree?)
    && f'.reapAttempts == After(f.reapAttempts, effect.ReapDirectChild?)
    && f'.diagnosticAttempts == After(f.diagnosticAttempts, effect.PreserveDiagnostics?)
    && f'.releaseAttempts == After(f.releaseAttempts, effect.ReleaseResources?)
  }

  lemma DiagnosticsCountsOnce(f: Facts, outcome: Outcome, retry: bool)
    ensures CountedOnce(f, DiagnosticsFacts(f, outcome, retry), PreserveDiagnostics)
  {
    hide SaturatingIncrement, TerminationFailure;
  }

  lemma CompletionCountsOnce(m: Machine, effect: Effect, outcome: Outcome)
    requires CompletionPlan(m, effect, outcome).Go?
    ensures CountedOnce(m.facts, CompletionPlan(m, effect, outcome).facts, effect)
  {
    hide SaturatingIncrement, TerminationFailure, DiagnosticsFacts;
    match effect
    case SpawnProcess =>
    case RequestGracefulStop =>
    case ForceKillProcessTree =>
    case ReapDirectChild =>
    case PreserveDiagnostics =>
      var retry := outcome.DiagnosticsFailed? && SaturatingIncrement(m.facts.diagnosticAttempts) < m.limits.diagnostics;
      DiagnosticsCountsOnce(m.facts, outcome, retry);
    case ValidateOutput =>
    case ReleaseResources =>
  }

  lemma CompletionCounts(m: Machine, effect: Effect, outcome: Outcome, counted: Effect)
    requires CompletionPlan(m, effect, outcome).Go? && IsCounted(counted)
    ensures Attempts(CompletionPlan(m, effect, outcome).facts, counted)
         == After(Attempts(m.facts, counted), effect == counted)
  {
    hide SaturatingIncrement, CompletionPlan;
    CompletionCountsOnce(m, effect, outcome);
  }

  lemma ObservationCountsNothing(m: Machine, action: Action, counted: Effect)
    requires !action.EffectCompleted? && PlanFor(m, action).Go?
    ensures Attempts(PlanFor(m, action).facts, counted) == Attempts(m.facts, counted)
  {
  }

  /** Every accepted completion adds exactly one to its own counter, and nothing else changes any. */
  lemma StepCounts(m: Machine, action: Action, counted: Effect)
    requires Inv(m) && IsCounted(counted) && Step(m, action).0.Ok?
    ensures Attempts(Step(m, action).1.facts, counted)
         == Attempts(m.facts, counted) + if Completes(action, counted) then 1 else 0
    ensures Step(m, action).1.trace == m.trace + [Step(m, action).0.value]
    ensures Step(m, action).0.value.action == action
  {
    StepKeeps(m, action);
    if action.EffectCompleted? {
      assert m.pending == Some(action.request);
      IncrementIsExact(m);
      hide Inv, CompletionPlan, Attempts, SaturatingIncrement;
      CompletionCounts(m, action.request.effect, action.outcome, counted);
    } else {
      ObservationCountsNothing(m, action, counted);
      hide Inv, CancelPlan, ExitObservedPlan, GraceExpiredPlan, Attempts;
    }
  }

  lemma {:induction false} RunCounts(m: Machine, actions: seq<Action>, counted: Effect)
    requires Inv(m) && IsCounted(counted) && Attempts(m.facts, counted) == Completions(m.trace, counted)
    ensures var end := Run(m, actions); Inv(end) && Attempts(end.facts, counted) == Completions(end.trace, counted)
    decreases |actions|
  {
    hide Step, Inv, Attempts;
    if actions != [] {
      var (r, m') := Step(m, actions[0]);
      StepKeeps(m, actions[0]);
      if r.Ok? {
        StepCounts(m, actions[0], counted);
        assert m'.trace[..|m.trace|] == m.trace;
      }
      RunCounts(m', actions[1..], counted);
    }
  }

  /**
   No attempt counter ever saturates: over every run each of the four counters is the exact
   number of accepted completions of its effect, and the increment that the outstanding
   effect will bring is exact too. A counter may well reach 255, when its ceiling is 255.
   */
  lemma CountersNeverSaturate(instanceId: nat, limits: Limits, traceLimit: nat, actions: seq<Action>, counted: Effect)
    requires LimitsOk(limits) && IsCounted(counted)
    ensures var m := Run(New(instanceId, limits, traceLimit), actions);
            && Attempts(m.facts, counted) == Completions(m.trace, counted)
            && (m.pending.Some? ==>
                  var k := Attempts(m.facts, m.pending.value.effect); SaturatingIncrement(k) == k + 1)
  {
    NewIsWhole(instanceId, limits, traceLimit);
    var start := New(instanceId, limits, traceLimit);
    assert Attempts(start.facts, counted) == Completions(start.trace, counted);
    RunCounts(start, actions, counted);
    hide Run, Inv, Attempts, SaturatingIncrement, Completions;
    if Run(start, actions).pending.Some? { IncrementIsExact(Run(start, actions)); }
  }
}
