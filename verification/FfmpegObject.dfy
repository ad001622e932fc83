/**
 The FFmpeg supervisor as a mutable object: each method does what `Step` prescribes for
 its input, and in particular leaves every field alone when it reports an error.
 */
module FfmpegObjects {
  import opened Wrappers
  import opened FfmpegLifecycles

  class FfmpegSupervisor {
    const instanceId: nat
    const limits: Limits
    const traceLimit: nat
    var state: State
    var trace: seq<Transition>
    var pending: Option<Request>
    var nextGeneration: nat
    var cancellationRequested: bool
    var exitObserved: bool
    var childSpawned: bool
    var forceKillAttempts: nat
    var reapAttempts: nat
    var diagnosticAttempts: nat
    var releaseAttempts: nat
    var reaped: Option<Termination>
    var failure: Option<Failure>
    var cleanupUnproven: bool
    var diagnosticsPreserved: bool
    var resourcesReleased: bool

    ghost function Known(): Facts
      reads this
    {
      Facts(cancellationRequested, exitObserved, childSpawned, forceKillAttempts, reapAttempts, diagnosticAttempts,
            releaseAttempts, reaped, failure, cleanupUnproven, diagnosticsPreserved, resourcesReleased)
    }

    ghost function Model(): Machine
      reads this
    {
      Machine(instanceId, limits, traceLimit, state, trace, pending, nextGeneration, Known())
    }

    constructor (instanceId: nat, limits: Limits, traceLimit: nat)
      ensures Model() == New(instanceId, limits, traceLimit)
    {
      this.instanceId := instanceId;
      this.limits := limits;
      this.traceLimit := traceLimit;
      state, trace, pending, nextGeneration := Prepared, [], None, 1;
      cancellationRequested, exitObserved, childSpawned := false, false, false;
      forceKillAttempts, reapAttempts, diagnosticAttempts, releaseAttempts := 0, 0, 0, 0;
      reaped, failure := None, None;
      cleanupUnproven, diagnosticsPreserved, resourcesReleased := false, false, false;
    }

    function PrepareTransition(issuesEffect: bool): Result<(), Error>
      reads this
    {
      if |trace| >= traceLimit then Err(TraceLimitReached(traceLimit))
      else if issuesEffect && nextGeneration == U64_MAX then Err(EffectGenerationExhausted)
      else Ok(())
    }

    method RecordWithEffect(action: Action, next: State, effect: Option<Effect>) returns (record: Transition)
      modifies this`state, this`trace, this`pending, this`nextGeneration
      ensures Model() == Record(old(Model()), action, Go(next, effect, old(Known()), true))
      ensures record == trace[|old(trace)|]
    {
      var issued := None;
      if effect.Some? {
        issued := Some(Request(instanceId, nextGeneration, effect.value));
        nextGeneration := nextGeneration + 1;
      }
      record := Transition(state, action, next, issued);
      state := next;
      pending := issued;
      trace := trace + [record];
    }

    method RecordObservation(action: Action, next: State) returns (record: Transition)
      modifies this`state, this`trace
      ensures Model() == Record(old(Model()), action, Go(next, None, old(Known()), false))
      ensures record == trace[|old(trace)|]
    {
      record := Transition(state, action, next, None);
      state := next;
      trace := trace + [record];
    }

    method Begin() returns (r: Result<Transition, Error>)
      modifies this
      ensures (r, Model()) == Step(old(Model()), Start)
    {
      if !state.Prepared? || pending.Some? {
        return Err(InvalidTransition(state, Start));
      }
      var prepared := PrepareTransition(true);
      if prepared.Err? {
        return Err(prepared.error);
      }
      var record := RecordWithEffect(Start, Spawning, Some(SpawnProcess));
      r := Ok(record);
    }

    method RequestCancellation() returns (r: Result<Transition, Error>)
      modifies this
      ensures (r, Model()) == Step(old(Model()), Cancel)
    {
      if Terminal(state) {
        return Err(InvalidTransition(state, Cancel));
      }
      var next, effect := state, None;
      if state.Prepared? {
        next, effect := ReleasePending, Some(ReleaseResources);
      } else if state.Running? && pending.None? {
        next, effect := GracefulStopPending, Some(RequestGracefulStop);
      }
      var prepared := PrepareTransition(effect.Some?);
      if prepared.Err? {
        return Err(prepared.error);
      }
      cancellationRequested := true;
      var record;
      if effect.Some? {
        record := RecordWithEffect(Cancel, next, effect);
      } else {
        record := RecordObservation(Cancel, next);
      }
      r := Ok(record);
    }

    method ObserveChildExit() returns (r: Result<Transition, Error>)
      modifies this
      ensures (r, Model()) == Step(old(Model()), ChildExitObserved)
    {
      var next, effect := state, None;
      match state {
        case Running | GracefulExitPending =>
          if pending.Some? {
            return Err(InvalidTransition(state, ChildExitObserved));
          }
          next, effect := ReapPending, Some(ReapDirectChild);
        case Prepared | Spawning =>
          return Err(InvalidTransition(state, ChildExitObserved));
        case _ =>
      }
      var prepared := PrepareTransition(effect.Some?);
      if prepared.Err? {
        return Err(prepared.error);
      }
      exitObserved := true;
      var record;
      if effect.Some? {
        record := RecordWithEffect(ChildExitObserved, next, effect);
      } else {
        record := RecordObservation(ChildExitObserved, next);
      }
      r := Ok(record);
    }

    method ExpireGracePeriod() returns (r: Result<Transition, Error>)
      modifies this
      ensures (r, Model()) == Step(old(Model()), GracePeriodExpired)
    {
      if !state.GracefulExitPending? || pending.Some? {
        return Err(InvalidTransition(state, GracePeriodExpired));
      }
      var next, effect := ForcedKillPending, ForceKillProcessTree;
      if exitObserved {
        next, effect := ReapPending, ReapDirectChild;
      }
      var prepared := PrepareTransition(true);
      if prepared.Err? {
        return Err(prepared.error);
      }
      var record := RecordWithEffect(GracePeriodExpired, next, Some(effect));
      r := Ok(record);
    }

    method CompleteEffect(request: Request, outcome: Outcome) returns (r: Result<Transition, Error>)
      modifies this
      ensures (r, Model()) == Step(old(Model()), EffectCompleted(request, outcome))
    {
      if pending != Some(request) {
        return Err(UnexpectedEffectCompletion(request, pending));
      }
      if !OutcomeMatches(request.effect, outcome) {
        return Err(OutcomeDoesNotMatchEffect(request.effect, outcome));
      }
      hide SpawnPlan, GracefulPlan, ForcedKillPlan, ReapPlan, DiagnosticsPlan, ValidationPlan, ReleasePlan, Settle;
      match request.effect
      case SpawnProcess => r := CompleteSpawn(request, outcome);
      case RequestGracefulStop => r := CompleteGraceful(request, outcome);
      case ForceKillProcessTree => r := CompleteForcedKill(request, outcome);
      case ReapDirectChild => r := CompleteReap(request, outcome);
      case PreserveDiagnostics => r := CompleteDiagnostics(request, outcome);
      case ValidateOutput => r := CompleteOutputValidation(request, outcome);
      case ReleaseResources => r := CompleteRelease(request, outcome);
    }

    ghost predicate Correlated(request: Request, outcome: Outcome, effect: Effect)
      reads this
    {
      pending == Some(request) && request.effect == effect && OutcomeMatches(effect, outcome)
    }

    method CompleteSpawn(request: Request, outcome: Outcome) returns (r: Result<Transition, Error>)
      requires Correlated(request, outcome, SpawnProcess)
      modifies this
      ensures (r, Model()) == Settle(old(Model()), EffectCompleted(request, outcome), SpawnPlan(old(Model()), outcome))
    {
      var action := EffectCompleted(request, outcome);
      ghost var plan := SpawnPlan(Model(), outcome);
      var next, effect;
      if outcome.Spawned? && cancellationRequested {
        next, effect := GracefulStopPending, Some(RequestGracefulStop);
      } else if outcome.Spawned? {
        next, effect := Running, None;
      } else {
        next, effect := DiagnosticsPending, Some(PreserveDiagnostics);
      }
      var prepared := PrepareTransition(effect.Some?);
      if prepared.Err? {
        return Err(prepared.error);
      }
      pending := None;
      if outcome.Spawned? {
        childSpawned := true;
      } else {
        failure := Some(SpawnFailure);
      }
      assert Known() == plan.facts;
      var record := RecordWithEffect(action, next, effect);
      r := Ok(record);
    }

    method CompleteGraceful(request: Request, outcome: Outcome) returns (r: Result<Transition, Error>)
      requires Correlated(request, outcome, RequestGracefulStop)
      modifies this
      ensures (r, Model()) == Settle(old(Model()), EffectCompleted(request, outcome),
                                     GracefulPlan(old(Model()), outcome))
    {
      var action := EffectCompleted(request, outcome);
      ghost var plan := GracefulPlan(Model(), outcome);
      var next, effect;
      if exitObserved {
        next, effect := ReapPending, Some(ReapDirectChild);
      } else if outcome.GracefulStopRequested? {
        next, effect := GracefulExitPending, None;
      } else {
        next, effect := ForcedKillPending, Some(ForceKillProcessTree);
      }
      var prepared := PrepareTransition(effect.Some?);
      if prepared.Err? {
        return Err(prepared.error);
      }
      pending := None;
      assert Known() == plan.facts;
      var record := RecordWithEffect(action, next, effect);
      r := Ok(record);
    }

    method CompleteForcedKill(request: Request, outcome: Outcome) returns (r: Result<Transition, Error>)
      requires Correlated(request, outcome, ForceKillProcessTree)
      modifies this
      ensures (r, Model()) == Settle(old(Model()), EffectCompleted(request, outcome),
                                     ForcedKillPlan(old(Model()), outcome))
    {
      var action := EffectCompleted(request, outcome);
      ghost var plan := ForcedKillPlan(Model(), outcome);
      var nextAttempt := SaturatingIncrement(forceKillAttempts);
      var failed := outcome.ForcedKillFailed?;
      var exhausted := failed && nextAttempt >= limits.forceKill;
      var next, effect;
      if failed && !exhausted && !exitObserved {
        next, effect := ForcedKillPending, ForceKillProcessTree;
      } else if exhausted && !exitObserved {
        next, effect := DiagnosticsPending, PreserveDiagnostics;
      } else {
        next, effect := ReapPending, ReapDirectChild;
      }
      var prepared := PrepareTransition(true);
      if prepared.Err? {
        return Err(prepared.error);
      }
      pending := None;
      forceKillAttempts := nextAttempt;
      if exhausted && !exitObserved {
        failure := Some(ForcedKillFailure);
        cleanupUnproven := true;
      }
      assert Known() == plan.facts;
      var record := RecordWithEffect(action, next, Some(effect));
      r := Ok(record);
    }

    method CompleteReap(request: Request, outcome: Outcome) returns (r: Result<Transition, Error>)
      requires Correlated(request, outcome, ReapDirectChild)
      modifies this
      ensures (r, Model()) == Settle(old(Model()), EffectCompleted(request, outcome), ReapPlan(old(Model()), outcome))
    {
      var action := EffectCompleted(request, outcome);
      ghost var plan := ReapPlan(Model(), outcome);
      var nextAttempt := SaturatingIncrement(reapAttempts);
      var exhausted := outcome.reap.WaitFailed? && nextAttempt >= limits.reap;
      var next, effect := DiagnosticsPending, PreserveDiagnostics;
      if outcome.reap.WaitFailed? && !exhausted {
        next, effect := ReapPending, ReapDirectChild;
      }
      var prepared := PrepareTransition(true);
      if prepared.Err? {
        return Err(prepared.error);
      }
      pending := None;
      reapAttempts := nextAttempt;
      match outcome.reap {
        case Reaped(termination) =>
          reaped := Some(termination);
        case WaitFailed(osCode) =>
          if exhausted {
            failure := Some(WaitFailure(osCode));
            cleanupUnproven := true;
          }
      }
      assert Known() == plan.facts;
      var record := RecordWithEffect(action, next, Some(effect));
      r := Ok(record);
    }

    method ClassifyDiagnostics(outcome: Outcome, retry: bool)
      modifies this`diagnosticAttempts, this`failure, this`diagnosticsPreserved
      ensures Known() == DiagnosticsFacts(old(Known()), outcome, retry)
    {
      diagnosticAttempts := SaturatingIncrement(diagnosticAttempts);
      if !retry && !cancellationRequested && failure.None? {
        failure := TerminationFailure(reaped);
      }
      if outcome.DiagnosticsPreserved? {
        diagnosticsPreserved := true;
      } else if !retry && failure.None? {
        failure := Some(DiagnosticsFailure);
      }
    }

    method CompleteDiagnostics(request: Request, outcome: Outcome) returns (r: Result<Transition, Error>)
      requires Correlated(request, outcome, PreserveDiagnostics)
      modifies this
      ensures (r, Model()) == Settle(old(Model()), EffectCompleted(request, outcome),
                                     DiagnosticsPlan(old(Model()), outcome))
    {
      var action := EffectCompleted(request, outcome);
      ghost var plan := DiagnosticsPlan(Model(), outcome);
      hide DiagnosticsFacts, TerminationFailure;
      var nextAttempt := SaturatingIncrement(diagnosticAttempts);
      var failed := outcome.DiagnosticsFailed?;
      var retry := failed && nextAttempt < limits.diagnostics;
      var next, effect;
      if retry {
        next, effect := DiagnosticsPending, Some(PreserveDiagnostics);
      } else if cleanupUnproven {
        next, effect := if cancellationRequested then Cancelled else Failed, None;
      } else if !childSpawned || cancellationRequested || failure.Some? {
        next, effect := ReleasePending, Some(ReleaseResources);
      } else {
        match reaped {
          case None => return Err(InvalidTransition(state, action));
          case Some(termination) =>
            if termination == ExitCode(0) {
              next, effect := OutputValidationPending, Some(ValidateOutput);
            } else {
              next, effect := ReleasePending, Some(ReleaseResources);
            }
        }
      }
      var prepared := PrepareTransition(effect.Some?);
      if prepared.Err? {
        return Err(prepared.error);
      }
      pending := None;
      ClassifyDiagnostics(outcome, retry);
      assert Known() == plan.facts;
      var record := RecordWithEffect(action, next, effect);
      r := Ok(record);
    }

    /** The pending effect is cleared before the outcome is classified; the classification cannot fail any more. */
    method CompleteOutputValidation(request: Request, outcome: Outcome) returns (r: Result<Transition, Error>)
      requires Correlated(request, outcome, ValidateOutput)
      modifies this
      ensures (r, Model()) == Settle(old(Model()), EffectCompleted(request, outcome),
                                     ValidationPlan(old(Model()), outcome))
    {
      var action := EffectCompleted(request, outcome);
      ghost var plan := ValidationPlan(Model(), outcome);
      var prepared := PrepareTransition(true);
      if prepared.Err? {
        return Err(prepared.error);
      }
      pending := None;
      match outcome {
        case OutputValidated =>
        case OutputInvalid =>
          failure := Some(OutputInvalidFailure);
        case OutputValidationFailed =>
          failure := Some(OutputValidationFailure);
        case _ =>
          assert false;
      }
      assert Known() == plan.facts;
      var record := RecordWithEffect(action, ReleasePending, Some(ReleaseResources));
      r := Ok(record);
    }

    method CompleteRelease(request: Request, outcome: Outcome) returns (r: Result<Transition, Error>)
      requires Correlated(request, outcome, ReleaseResources)
      modifies this
      ensures (r, Model()) == Settle(old(Model()), EffectCompleted(request, outcome),
                                     ReleasePlan(old(Model()), outcome))
    {
      var action := EffectCompleted(request, outcome);
      ghost var plan := ReleasePlan(Model(), outcome);
      var nextAttempt := SaturatingIncrement(releaseAttempts);
      var failed := outcome.ResourceReleaseFailed?;
      var retry := failed && nextAttempt < limits.release;
      var next;
      if retry {
        next := ReleasePending;
      } else if cancellationRequested {
        next := Cancelled;
      } else if failed || failure.Some? {
        next := Failed;
      } else {
        next := Exited;
      }
      var prepared := PrepareTransition(retry);
      if prepared.Err? {
        return Err(prepared.error);
      }
      pending := None;
      releaseAttempts := nextAttempt;
      if failed && !retry {
        failure := Some(ReleaseFailure);
      }
      if outcome.ResourcesReleased? {
        resourcesReleased := true;
      }
      assert Known() == plan.facts;
      var record := RecordWithEffect(action, next, if retry then Some(ReleaseResources) else None);
      r := Ok(record);
    }
  }
}
