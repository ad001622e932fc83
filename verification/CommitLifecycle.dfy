/**
 The commit, archive and reconciliation protocol as a table of the correlated-effect
 engine, and the order it enforces over every run.
 */
module CommitLifecycles {
  import opened Wrappers
  import opened StateMachines

  datatype Commit =
    | Working | Preparing | DataSynchronizing | PreparedDirectorySynchronizing
    | PreparedRecordAppending | PreparedJournalSynchronizing | Prepared
    | Renaming | RenameDirectorySynchronizing | RenamedRecordAppending | RenamedJournalSynchronizing | Renamed
    | Archiving | ArchivedRecordAppending | ArchivedJournalSynchronizing | Archived
    | Cleaning | CleanedRecordAppending | CleanedJournalSynchronizing | Cleaned
    | Reconciling | VerifyingPrepared | VerifyingRenamed | VerifyingArchived | VerifyingCleaned
    | Cancelling | Reconciled | Inconsistent | Cancelled

  type Move = Option<(Commit, seq<EffectIntent>)>

  function Go(next: Commit): Move {
    Some((next, Batch(next)))
  }

  /** The effects that must be acknowledged before a machine may move on from a target state. */
  function Batch(target: Commit): seq<EffectIntent> {
    match target
    case Preparing => [ValidateOutput]
    case DataSynchronizing => [SynchronizeData]
    case PreparedDirectorySynchronizing => [SynchronizeDirectory]
    case RenameDirectorySynchronizing => [SynchronizeDirectory]
    case PreparedRecordAppending => [AppendTransitionRecord]
    case RenamedRecordAppending => [AppendTransitionRecord]
    case ArchivedRecordAppending => [AppendTransitionRecord]
    case CleanedRecordAppending => [AppendTransitionRecord]
    case PreparedJournalSynchronizing => [SynchronizeJournal]
    case RenamedJournalSynchronizing => [SynchronizeJournal]
    case ArchivedJournalSynchronizing => [SynchronizeJournal]
    case CleanedJournalSynchronizing => [SynchronizeJournal]
    case Renaming => [RenameOutput]
    case Archiving => [InsertArchiveRow]
    case Cleaning => [RemoveTemporaryState]
    case Reconciling => [VerifyArchiveOutputPair]
    case VerifyingPrepared => [RevalidatePreparedOutput]
    case VerifyingRenamed => [VerifyFinalArtifact]
    case VerifyingArchived => [VerifyArchiveOutputPair]
    case VerifyingCleaned => [VerifyArchiveOutputPair]
    case Cancelling => [PreserveDiagnostics, DrainInFlightEffect]
    case Cancelled => [ReleaseResources]
    case Inconsistent => [PreserveDiagnostics]
    case _ => []
  }

  /** Where a fully acknowledged batch leads. */
  function AfterAcknowledgement(state: Commit): Move {
    match state
    case Preparing => Go(DataSynchronizing)
    case DataSynchronizing => Go(PreparedDirectorySynchronizing)
    case PreparedDirectorySynchronizing => Go(PreparedRecordAppending)
    case PreparedRecordAppending => Go(PreparedJournalSynchronizing)
    case PreparedJournalSynchronizing => Go(Prepared)
    case VerifyingPrepared => Go(Prepared)
    case Renaming => Go(RenameDirectorySynchronizing)
    case RenameDirectorySynchronizing => Go(RenamedRecordAppending)
    case RenamedRecordAppending => Go(RenamedJournalSynchronizing)
    case RenamedJournalSynchronizing => Go(Renamed)
    case VerifyingRenamed => Go(Renamed)
    case Archiving => Go(ArchivedRecordAppending)
    case ArchivedRecordAppending => Go(ArchivedJournalSynchronizing)
    case ArchivedJournalSynchronizing => Go(Archived)
    case VerifyingArchived => Go(Archived)
    case Cleaning => Go(CleanedRecordAppending)
    case CleanedRecordAppending => Go(CleanedJournalSynchronizing)
    case CleanedJournalSynchronizing => Go(Cleaned)
    case VerifyingCleaned => Go(Cleaned)
    case Reconciling => Go(Reconciled)
    case Cancelling => Go(Cancelled)
    case _ => None
  }

  /** States of the commit proper, from which failing is possible. */
  predicate CanFail(state: Commit) {
    CanCancel(state) && !state.Reconciling? && !state.VerifyingPrepared? && !state.VerifyingRenamed?
    && !state.VerifyingArchived? && !state.VerifyingCleaned?
  }

  predicate CanCancel(state: Commit) {
    !state.Cancelling? && !state.Reconciled? && !state.Inconsistent? && !state.Cancelled?
  }

  function CommitTable(state: Commit, event: Event): Move {
    match event
    case EffectAcknowledged(_) => AfterAcknowledgement(state)
    case Prepare => if state.Working? then Go(Preparing) else None
    case Rename => if state.Prepared? then Go(Renaming) else None
    case Archive => if state.Renamed? then Go(Archiving) else None
    case Cleanup => if state.Archived? then Go(Cleaning) else None
    case Reconcile =>
      (match state
       case Prepared => Go(VerifyingPrepared)
       case Renamed => Go(VerifyingRenamed)
       case Archived => Go(VerifyingArchived)
       case Cleaned => Go(Reconciling)
       case _ => None)
    case Restart =>
      (match state
       case Prepared => Go(VerifyingPrepared)
       case Renamed => Go(VerifyingRenamed)
       case Archived => Go(VerifyingArchived)
       case Cleaned => Go(VerifyingCleaned)
       case _ => None)
    case Fail => if CanFail(state) then Go(Inconsistent) else None
    case Cancel => if CanCancel(state) then Go(Cancelling) else None
    case _ => None
  }

  lemma MovesCarryBatches(state: Commit, event: Event)
    requires CommitTable(state, event).Some?
    ensures CommitTable(state, event).value.1 == Batch(CommitTable(state, event).value.0)
  {
    hide Batch;
  }

  lemma RestIsQuiet(state: Commit)
    requires Batch(state) == []
    ensures Quiet(CommitTable, state)
  {
  }

  lemma BatchIsDistinct(target: Commit)
    ensures Distinct(Batch(target))
  {
  }

  lemma TableIsWellFormed()
    ensures WellFormed(CommitTable) && Quiet(CommitTable, Working)
  {
    RestIsQuiet(Working);
    forall s, e | CommitTable(s, e).Some?
      ensures Distinct(CommitTable(s, e).value.1)
      ensures CommitTable(s, e).value.1 == [] ==> Quiet(CommitTable, CommitTable(s, e).value.0)
    {
      hide CommitTable, Quiet, Batch, Distinct;
      MovesCarryBatches(s, e);
      var next := CommitTable(s, e).value.0;
      BatchIsDistinct(next);
      if Batch(next) == [] { RestIsQuiet(next); }
    }
    hide Batch, Quiet, Distinct;
  }

  // ---------------------------------------------------------------------------
  // The protocol

  /** The effects of a full commit, in the only order in which they may be acknowledged. */
  const CHAIN: seq<EffectIntent> := [
    ValidateOutput, SynchronizeData, SynchronizeDirectory, AppendTransitionRecord, SynchronizeJournal,
    RenameOutput, SynchronizeDirectory, AppendTransitionRecord, SynchronizeJournal,
    InsertArchiveRow, AppendTransitionRecord, SynchronizeJournal,
    RemoveTemporaryState, AppendTransitionRecord, SynchronizeJournal]

  predicate IsProtocol(effect: EffectIntent) {
    || effect.ValidateOutput? || effect.SynchronizeData? || effect.SynchronizeDirectory?
    || effect.AppendTransitionRecord? || effect.SynchronizeJournal? || effect.RenameOutput?
    || effect.InsertArchiveRow? || effect.RemoveTemporaryState?
  }

  /** The run has left the commit towards failure or cancellation. */
  predicate Leaving(state: Commit) {
    state.Cancelling? || state.Cancelled? || state.Inconsistent?
  }

  /** How much of the chain has been acknowledged in, or on the way to, a state. */
  function Depth(state: Commit): nat
    requires !Leaving(state)
    ensures Depth(state) <= |CHAIN|
  {
    match state
    case Working => 0
    case Preparing => 0
    case DataSynchronizing => 1
    case PreparedDirectorySynchronizing => 2
    case PreparedRecordAppending => 3
    case PreparedJournalSynchronizing => 4
    case Prepared => 5
    case VerifyingPrepared => 5
    case Renaming => 5
    case RenameDirectorySynchronizing => 6
    case RenamedRecordAppending => 7
    case RenamedJournalSynchronizing => 8
    case Renamed => 9
    case VerifyingRenamed => 9
    case Archiving => 9
    case ArchivedRecordAppending => 10
    case ArchivedJournalSynchronizing => 11
    case Archived => 12
    case VerifyingArchived => 12
    case Cleaning => 12
    case CleanedRecordAppending => 13
    case CleanedJournalSynchronizing => 14
    case Cleaned => 15
    case VerifyingCleaned => 15
    case Reconciling => 15
    case Reconciled => 15
  }

  function AcknowledgedBy(record: Record<Commit>): seq<EffectIntent> {
    if record.event.EffectAcknowledged? then [record.event.token.effect] else []
  }

  /** Every acknowledged effect of a run, in order. */
  function Acknowledged(trace: seq<Record<Commit>>): seq<EffectIntent> {
    if trace == [] then [] else Acknowledged(trace[..|trace| - 1]) + AcknowledgedBy(trace[|trace| - 1])
  }

  /** The protocol effects among them; verification and clean-up receipts are left aside. */
  function Progress(trace: seq<Record<Commit>>): seq<EffectIntent> {
    if trace == [] then [] else Progress(trace[..|trace| - 1]) + ProtocolStep(trace[|trace| - 1].event)
  }

  function ProtocolStep(event: Event): seq<EffectIntent> {
    if event.EffectAcknowledged? && IsProtocol(event.token.effect) then [event.token.effect] else []
  }

  /** Exactly the first `n` effects of the chain have been acknowledged, in order. */
  ghost predicate Reached(trace: seq<Record<Commit>>, n: nat) {
    n <= |CHAIN| && Progress(trace) == CHAIN[..n]
  }

  ghost predicate OnTrack(trace: seq<Record<Commit>>, state: Commit) {
    if Leaving(state) then exists n :: Reached(trace, n) else Reached(trace, Depth(state))
  }

  /** The state a machine is at, or is trying to reach. */
  ghost function Goal(m: Machine<Commit>): Commit
    requires m.state.At? || m.deferred.Some?
  {
    if m.state.At? then m.state.state else m.deferred.value.target
  }

  ghost predicate CommitInv(m: Machine<Commit>) {
    && Inv(CommitTable, m)
    && (m.deferred.Some? ==> m.deferred.value.effects == Batch(m.deferred.value.target))
    && (m.deferred.Some? && m.pending != [] && !Leaving(m.deferred.value.target) ==>
          !m.deferred.value.hasUnsuccessfulOutcome)
    && OnTrack(m.trace, Goal(m))
  }

  lemma ProgressAppend(trace: seq<Record<Commit>>, record: Record<Commit>)
    ensures Progress(trace + [record]) == Progress(trace) + ProtocolStep(record.event)
    ensures Acknowledged(trace + [record]) == Acknowledged(trace) + AcknowledgedBy(record)
  {
    assert (trace + [record])[..|trace|] == trace;
  }

  /** Acknowledging the batch of a chain state is the next link of the chain; other batches are no links. */
  lemma AcknowledgementDeepens(target: Commit)
    requires !Leaving(target) && Batch(target) != []
    ensures |Batch(target)| == 1
    ensures AfterAcknowledgement(target).Some? && !Leaving(AfterAcknowledgement(target).value.0)
    ensures Depth(AfterAcknowledgement(target).value.0) ==
            Depth(target) + if IsProtocol(Batch(target)[0]) then 1 else 0
  {
    hide Batch, AfterAcknowledgement, Depth, Verifies, Leaving;
    BatchOfChain(target);
    FollowerDeepens(target);
  }

  /** The states that check what is already done; their receipts are no links of the chain. */
  predicate Verifies(state: Commit) {
    || state.Reconciling? || state.VerifyingPrepared? || state.VerifyingRenamed? || state.VerifyingArchived?
    || state.VerifyingCleaned?
  }

  predicate Rests(state: Commit) {
    || state.Working? || state.Prepared? || state.Renamed? || state.Archived? || state.Cleaned? || state.Reconciled?
  }

  lemma BatchOfChain(target: Commit)
    requires !Leaving(target) && Batch(target) != []
    ensures !Rests(target) && |Batch(target)| == 1 && (IsProtocol(Batch(target)[0]) <==> !Verifies(target))
  {
  }

  predicate UpToRename(state: Commit) {
    || state.Preparing? || state.DataSynchronizing? || state.PreparedDirectorySynchronizing?
    || state.PreparedRecordAppending? || state.PreparedJournalSynchronizing?
    || state.Renaming? || state.RenameDirectorySynchronizing? || state.RenamedRecordAppending?
  }

  /** What follows the batch of `target` is one step deeper, or as deep if `target` only verifies. */
  ghost predicate Deepens(target: Commit)
    requires !Leaving(target)
  {
    && AfterAcknowledgement(target).Some? && !Leaving(AfterAcknowledgement(target).value.0)
    && Depth(AfterAcknowledgement(target).value.0) == Depth(target) + if Verifies(target) then 0 else 1
  }

  lemma EarlyStatesDeepen(target: Commit)
    requires UpToRename(target)
    ensures !Leaving(target) && Deepens(target)
  {
    hide Batch;
  }

  lemma LateStatesDeepen(target: Commit)
    requires !Leaving(target) && !Rests(target) && !UpToRename(target) && !Verifies(target)
    ensures Deepens(target)
  {
    hide Batch;
  }

  lemma VerifyingStatesStay(target: Commit)
    requires Verifies(target)
    ensures !Leaving(target) && Deepens(target)
  {
    hide Batch;
  }

  lemma FollowerDeepens(target: Commit)
    requires !Leaving(target) && !Rests(target)
    ensures Deepens(target)
  {
    hide Deepens, Rests, UpToRename, Verifies, Leaving;
    if UpToRename(target) {
      EarlyStatesDeepen(target);
    } else if Verifies(target) {
      VerifyingStatesStay(target);
    } else {
      LateStatesDeepen(target);
    }
  }

  lemma BatchIsChainLink(target: Commit)
    requires !Leaving(target) && Batch(target) != [] && IsProtocol(Batch(target)[0])
    ensures Depth(target) < |CHAIN| && CHAIN[Depth(target)] == Batch(target)[0]
  {
  }

  lemma Silent(trace: seq<Record<Commit>>, record: Record<Commit>, n: nat)
    requires Reached(trace, n) && ProtocolStep(record.event) == []
    ensures Reached(trace + [record], n)
  {
    ProgressAppend(trace, record);
    assert Progress(trace) + [] == Progress(trace);
  }

  lemma Link(trace: seq<Record<Commit>>, record: Record<Commit>, n: nat)
    requires Reached(trace, n) && n < |CHAIN| && ProtocolStep(record.event) == [CHAIN[n]]
    ensures Reached(trace + [record], n + 1)
  {
    hide Progress, ProtocolStep;
    ProgressAppend(trace, record);
    TakeOneMore(CHAIN, n);
  }

  lemma TakeOneMore<T>(s: seq<T>, n: nat)
    requires n < |s|
    ensures s[..n + 1] == s[..n] + [s[n]]
  {
  }

  /** Moves other than acknowledgements do not change how much is done, unless they leave. */
  lemma MoveKeepsDepth(state: Commit, event: Event)
    requires !event.EffectAcknowledged? && CommitTable(state, event).Some?
    ensures var next := CommitTable(state, event).value.0;
            !Leaving(state) && (Leaving(next) || Depth(next) == Depth(state))
    ensures CommitTable(state, event).value.1 == Batch(CommitTable(state, event).value.0)
  {
    hide Batch, AfterAcknowledgement;
  }

  lemma OnTrackSilent(trace: seq<Record<Commit>>, record: Record<Commit>, state: Commit, next: Commit)
    requires OnTrack(trace, state) && ProtocolStep(record.event) == []
    requires Leaving(next) || (!Leaving(state) && Depth(next) == Depth(state))
    ensures OnTrack(trace + [record], next)
  {
    var n :| Reached(trace, n) && (!Leaving(state) ==> n == Depth(state));
    Silent(trace, record, n);
  }

  // ---------------------------------------------------------------------------
  // Every event keeps the order

  lemma EnterOnTrack(m: Machine<Commit>, event: Event, next: Commit)
    requires Inv(CommitTable, m) && Inv(CommitTable, Enter(m, event, next, Batch(next)).1)
    requires Enter(m, event, next, Batch(next)).0.Ok?
    requires OnTrack(Enter(m, event, next, Batch(next)).1.trace, next)
    ensures CommitInv(Enter(m, event, next, Batch(next)).1)
  {
    hide OnTrack, Inv, Batch;
  }

  lemma EnterTrace(m: Machine<Commit>, event: Event, next: Commit, effects: seq<EffectIntent>)
    requires Enter(m, event, next, effects).0.Ok?
    ensures var m' := Enter(m, event, next, effects).1;
            && |m'.trace| == |m.trace| + 1 && m'.trace == m.trace + [m'.trace[|m.trace|]]
            && m'.trace[|m.trace|].event == event
  {
    hide Tokens;
  }

  lemma AdvanceOnTrack(m: Machine<Commit>, event: Event)
    requires CommitInv(m) && m.deferred.None? && Apply(CommitTable, m, event).0.Ok?
    ensures CommitInv(Apply(CommitTable, m, event).1)
  {
    TableIsWellFormed();
    ApplyKeeps(CommitTable, m, event);
    var state := m.state.state;
    assert !event.EffectAcknowledged?;
    var m' := Apply(CommitTable, m, event).1;
    var (next, effects) := CommitTable(state, event).value;
    MoveKeepsDepth(state, event);
    EnterTrace(m, event, next, effects);
    hide OnTrack, CommitTable, Batch, Inv, WellFormed;
    OnTrackSilent(m.trace, m'.trace[|m.trace|], state, next);
    EnterOnTrack(m, event, next);
  }

  lemma RetryOnTrack(m: Machine<Commit>, event: Event)
    requires CommitInv(m) && m.state.EffectRecovery? && Apply(CommitTable, m, event).0.Ok?
    ensures CommitInv(Apply(CommitTable, m, event).1)
  {
    TableIsWellFormed();
    ApplyKeeps(CommitTable, m, event);
    var target := m.deferred.value.target;
    var m' := Apply(CommitTable, m, event).1;
    EnterTrace(m, event, target, Batch(target));
    hide OnTrack, CommitTable, Batch, Inv, WellFormed;
    OnTrackSilent(m.trace, m'.trace[|m.trace|], target, target);
    EnterOnTrack(m, event, target);
  }

  /** A batch of one effect is settled by its first outcome. */
  lemma SingleTokenPending(m: Machine<Commit>)
    requires CommitInv(m) && m.state.EffectPending? && !Leaving(m.deferred.value.target)
    ensures |m.pending| == 1 && m.pending[0].effect == Batch(m.deferred.value.target)[0]
  {
    var target := m.deferred.value.target;
    AcknowledgementDeepens(target);
    hide OnTrack, CommitTable, Batch;
    forall i | 0 <= i < |m.pending|
      ensures m.pending[i] == Token(m.instanceId, Batch(target)[0], m.nextGeneration - 1)
    {
      assert m.pending[i] in m.pending;
    }
    if |m.pending| >= 2 {
      FirstTwoDiffer(m.pending);
      assert false;
    }
  }

  lemma FirstTwoDiffer(tokens: seq<Token>)
    requires Distinct(tokens) && |tokens| >= 2
    ensures tokens[0] != tokens[1]
  {
  }

  lemma LeavingIsSilent(target: Commit, effect: EffectIntent)
    requires Leaving(target) && effect in Batch(target)
    ensures !IsProtocol(effect)
  {
  }

  lemma LeavingGoesOn(m: Machine<Commit>, event: Event)
    requires CommitInv(m) && m.state.EffectPending? && Leaving(m.deferred.value.target)
    requires Apply(CommitTable, m, event).0.Ok? && Inv(CommitTable, Apply(CommitTable, m, event).1)
    ensures var m' := Apply(CommitTable, m, event).1;
            && Leaving(Goal(m'))
            && (m'.deferred.Some? ==> m'.deferred.value.effects == Batch(m'.deferred.value.target))
  {
    hide OnTrack, Batch, Inv, CommitTable;
    var target := m.deferred.value.target;
    if CommitTable(target, event).Some? { LeavingStaysLeaving(target, event); }
  }

  lemma LeavingStaysLeaving(target: Commit, event: Event)
    requires Leaving(target) && CommitTable(target, event).Some?
    ensures Leaving(CommitTable(target, event).value.0)
    ensures CommitTable(target, event).value.1 == Batch(CommitTable(target, event).value.0)
  {
  }

  /** While leaving, no receipt belongs to the protocol. */
  lemma SettleLeaving(m: Machine<Commit>, event: Event)
    requires CommitInv(m) && m.state.EffectPending? && Leaving(m.deferred.value.target)
    requires Apply(CommitTable, m, event).0.Ok?
    ensures CommitInv(Apply(CommitTable, m, event).1)
  {
    TableIsWellFormed();
    ApplyKeeps(CommitTable, m, event);
    AcceptedStep(CommitTable, m, event);
    var target := m.deferred.value.target;
    var m' := Apply(CommitTable, m, event).1;
    LeavingIsSilent(target, event.token.effect);
    LeavingGoesOn(m, event);
    assert m'.trace == m.trace + [m'.trace[|m.trace|]];
    hide OnTrack, CommitTable, Batch, Inv, WellFormed, Apply;
    OnTrackSilent(m.trace, m'.trace[|m.trace|], target, Goal(m'));
  }

  lemma SettleFails(m: Machine<Commit>, event: Event)
    requires CommitInv(m) && m.state.EffectPending? && !Leaving(m.deferred.value.target)
    requires Apply(CommitTable, m, event).0.Ok? && !event.EffectAcknowledged?
    ensures CommitInv(Apply(CommitTable, m, event).1)
  {
    TableIsWellFormed();
    ApplyKeeps(CommitTable, m, event);
    AcceptedStep(CommitTable, m, event);
    SingleTokenPending(m);
    var target := m.deferred.value.target;
    var m' := Apply(CommitTable, m, event).1;
    assert m'.trace == m.trace + [m'.trace[|m.trace|]];
    assert m'.deferred.Some? && m'.deferred.value.target == target && m'.pending == [];
    hide OnTrack, CommitTable, Batch, Inv, WellFormed, Apply;
    OnTrackSilent(m.trace, m'.trace[|m.trace|], target, target);
  }

  lemma SettleSucceeds(m: Machine<Commit>, event: Event)
    requires CommitInv(m) && m.state.EffectPending? && !Leaving(m.deferred.value.target)
    requires Apply(CommitTable, m, event).0.Ok? && event.EffectAcknowledged?
    ensures CommitInv(Apply(CommitTable, m, event).1)
  {
    TableIsWellFormed();
    ApplyKeeps(CommitTable, m, event);
    SingleTokenPending(m);
    var target := m.deferred.value.target;
    AcknowledgementDeepens(target);
    var (next, effects) := AfterAcknowledgement(target).value;
    MovesCarryBatches(target, event);
    var m' := Apply(CommitTable, m, event).1;
    assert event.token == m.pending[0];
    assert m' == Enter(m, event, next, effects).1 && Enter(m, event, next, effects).0.Ok?;
    EnterTrace(m, event, next, effects);
    var record := m'.trace[|m.trace|];
    if IsProtocol(Batch(target)[0]) {
      BatchIsChainLink(target);
      hide CommitTable, Batch, Inv, WellFormed, Apply, Enter;
      assert ProtocolStep(record.event) == [CHAIN[Depth(target)]];
      Link(m.trace, record, Depth(target));
      EnterOnTrack(m, event, next);
    } else {
      hide OnTrack, CommitTable, Batch, Inv, WellFormed, Apply, Enter;
      OnTrackSilent(m.trace, record, target, next);
      EnterOnTrack(m, event, next);
    }
  }

  lemma StepOnTrack(m: Machine<Commit>, event: Event)
    requires CommitInv(m)
    ensures CommitInv(Apply(CommitTable, m, event).1)
  {
    TableIsWellFormed();
    ApplyKeeps(CommitTable, m, event);
    if Apply(CommitTable, m, event).0.Ok? {
      hide Apply, OnTrack, CommitTable, Batch, Leaving, WellFormed;
      if m.deferred.None? {
        AdvanceOnTrack(m, event);
      } else if m.state.EffectRecovery? {
        RetryOnTrack(m, event);
      } else if Leaving(m.deferred.value.target) {
        SettleLeaving(m, event);
      } else if event.EffectAcknowledged? {
        SettleSucceeds(m, event);
      } else {
        SettleFails(m, event);
      }
    }
  }

  // ---------------------------------------------------------------------------
  // Main results

  /** A reconciled machine got there by the acknowledged check of the archived output. */
  ghost predicate VerifiedLast(m: Machine<Commit>) {
    m.state == At(Reconciled) ==>
      && m.trace != []
      && m.trace[|m.trace| - 1].event.EffectAcknowledged?
      && m.trace[|m.trace| - 1].event.token.effect == VerifyArchiveOutputPair
  }

  lemma StepVerifiedLast(m: Machine<Commit>, event: Event)
    requires CommitInv(m) && VerifiedLast(m)
    ensures VerifiedLast(Apply(CommitTable, m, event).1)
  {
    hide Apply, CommitTable, Inv, CommitInv, WellFormed;
    var (r, m') := Apply(CommitTable, m, event);
    CommitIsCorrelated(m);
    TableIsWellFormed();
    ApplyKeeps(CommitTable, m, event);
    if r.Ok? && m'.state == At(Reconciled) {
      AcceptedStep(CommitTable, m, event);
      ReconciledByVerification(m, event);
    }
  }

  lemma CommitIsCorrelated(m: Machine<Commit>)
    requires CommitInv(m)
    ensures Inv(CommitTable, m)
  {
  }

  predicate Reconciles(m: Machine<Commit>, event: Event) {
    Apply(CommitTable, m, event).0.Ok? && Apply(CommitTable, m, event).1.state == At(Reconciled)
  }

  lemma ReconciledByVerification(m: Machine<Commit>, event: Event)
    requires CommitInv(m)
    ensures Reconciles(m, event) ==> event.EffectAcknowledged? && event.token.effect == VerifyArchiveOutputPair
  {
    if m.deferred.Some? {
      assert Batch(Reconciling)[0] == VerifyArchiveOutputPair;
      hide OnTrack, Apply, CommitTable, Batch, Inv, WellFormed;
      OnlyReconcilingReconciles(m, event);
      if Reconciles(m, event) {
        TableIsWellFormed();
        AcceptedStep(CommitTable, m, event);
        SingleTokenPending(m);
      }
    } else {
      RestNeverReconciles(m, event);
    }
  }

  lemma RestNeverReconciles(m: Machine<Commit>, event: Event)
    requires CommitInv(m) && m.deferred.None?
    ensures !Reconciles(m, event)
  {
    hide OnTrack, Batch, Apply;
    if Reconciles(m, event) {
      ComesToRest(CommitTable, m, event);
      MoveNeverReconciles(m.state.state, event);
      assert false;
    }
  }

  lemma OnlyReconcilingReconciles(m: Machine<Commit>, event: Event)
    requires CommitInv(m) && m.deferred.Some?
    ensures Reconciles(m, event) ==>
              m.state.EffectPending? && m.deferred.value.target == Reconciling && event.EffectAcknowledged?
  {
    assert Batch(Reconciled) == [];
    hide OnTrack, CommitTable, Batch, Apply;
    if Reconciles(m, event) {
      ComesToRest(CommitTable, m, event);
      var target := m.deferred.value.target;
      if CommitTable(target, event).Some? { LeadsToReconciled(target, event); }
    }
  }

  lemma LeadsToReconciled(target: Commit, event: Event)
    requires CommitTable(target, event).Some?
    ensures CommitTable(target, event).value.0 == Reconciled ==> target == Reconciling && event.EffectAcknowledged?
  {
    hide Batch;
  }

  lemma MoveNeverReconciles(state: Commit, event: Event)
    requires !event.EffectAcknowledged? && CommitTable(state, event).Some?
    ensures CommitTable(state, event).value.1 != []
  {
  }

  lemma {:induction false} RunOnTrack(m: Machine<Commit>, events: seq<Event>)
    requires CommitInv(m) && VerifiedLast(m)
    ensures CommitInv(Run(CommitTable, m, events)) && VerifiedLast(Run(CommitTable, m, events))
    ensures m.trace <= Run(CommitTable, m, events).trace
    decreases |events|
  {
    hide Apply, CommitInv, VerifiedLast;
    if events != [] {
      StepOnTrack(m, events[0]);
      StepVerifiedLast(m, events[0]);
      StepExtendsTrace(m, events[0]);
      RunOnTrack(Apply(CommitTable, m, events[0]).1, events[1..]);
    }
  }

  lemma StepExtendsTrace(m: Machine<Commit>, event: Event)
    requires CommitInv(m)
    ensures m.trace <= Apply(CommitTable, m, event).1.trace
  {
    TableIsWellFormed();
    ApplyKeeps(CommitTable, m, event);
    if Apply(CommitTable, m, event).0.Ok? { AcceptedStep(CommitTable, m, event); }
  }

  lemma FreshOnTrack(instanceId: nat, traceLimit: nat)
    ensures CommitInv(New(Working, instanceId, traceLimit)) && VerifiedLast(New(Working, instanceId, traceLimit))
  {
    TableIsWellFormed();
    NewIsCorrelated(CommitTable, Working, instanceId, traceLimit);
    hide CommitTable;
    assert Reached([], 0) by { assert CHAIN[..0] == []; }
  }

  lemma CommitIsCorrelatedAndReplayable()
    ensures CorrelatedAndReplayable(CommitTable, Working)
  {
    hide WellFormed, Quiet, CorrelatedAndReplayable, CommitTable;
    TableIsWellFormed();
    WellFormedKeepsPromise(CommitTable, Working);
  }

  /** How many of the chain's effects stand acknowledged when the machine rests at a state. */
  function RequiredAt(state: Commit): Option<nat> {
    match state
    case Prepared => Some(5)
    case Renamed => Some(9)
    case Archived => Some(12)
    case Cleaned => Some(15)
    case Reconciled => Some(15)
    case _ => None
  }

  /**
   Over every run of a fresh commit machine, under any mixture of failed or cancelled
   outcomes, restarts, cancellations and rejected events:
   - the acknowledged protocol effects are always a prefix of the chain, in order;
   - resting at a durable state means exactly the effects of all phases up to it;
   - a reconciled machine ended with the acknowledged check of the archived output.
   */
  lemma CommitOrder(instanceId: nat, traceLimit: nat, events: seq<Event>)
    ensures var m := Run(CommitTable, New(Working, instanceId, traceLimit), events);
            && Progress(m.trace) <= CHAIN
            && (m.state.At? && RequiredAt(m.state.state).Some? ==>
                  Progress(m.trace) == CHAIN[..RequiredAt(m.state.state).value])
            && VerifiedLast(m)
  {
    hide Run, CommitTable, CommitInv, VerifiedLast, RequiredAt, Progress;
    FreshOnTrack(instanceId, traceLimit);
    RunOnTrack(New(Working, instanceId, traceLimit), events);
    TrackIsPrefix(Run(CommitTable, New(Working, instanceId, traceLimit), events));
  }

  lemma TrackIsPrefix(m: Machine<Commit>)
    requires CommitInv(m)
    ensures Progress(m.trace) <= CHAIN
    ensures m.state.At? && RequiredAt(m.state.state).Some? ==>
              && |Progress(m.trace)| == RequiredAt(m.state.state).value
              && Progress(m.trace) == CHAIN[..RequiredAt(m.state.state).value]
  {
    hide CommitTable, Inv, Batch, Progress;
    var n :| Reached(m.trace, n);
  }

  function Count(effects: seq<EffectIntent>, effect: EffectIntent): nat {
    if effects == [] then 0
    else Count(effects[..|effects| - 1], effect) + if effects[|effects| - 1] == effect then 1 else 0
  }

  lemma {:induction false} CountPrefix(effects: seq<EffectIntent>, n: nat, effect: EffectIntent)
    requires n <= |effects|
    ensures Count(effects[..n], effect) <= Count(effects, effect)
    decreases |effects|
  {
    if n == |effects| {
      assert effects[..n] == effects;
    } else {
      var front := effects[..|effects| - 1];
      assert front[..n] == effects[..n];
      CountPrefix(front, n, effect);
    }
  }

  /** Acknowledgements of a protocol effect are counted the same in the whole run and in its protocol part. */
  lemma {:induction false} CountInProgress(trace: seq<Record<Commit>>, effect: EffectIntent)
    requires IsProtocol(effect)
    ensures Count(Acknowledged(trace), effect) == Count(Progress(trace), effect)
  {
    if trace != [] {
      var (front, last) := (trace[..|trace| - 1], trace[|trace| - 1]);
      assert Acknowledged(trace) == Acknowledged(front) + AcknowledgedBy(last);
      assert Progress(trace) == Progress(front) + ProtocolStep(last.event);
      hide Count, Acknowledged, Progress;
      CountInProgress(front, effect);
      assert Progress(front) + [] == Progress(front);
      assert Acknowledged(front) + [] == Acknowledged(front);
      if last.event.EffectAcknowledged? {
        CountAppend(Acknowledged(front), last.event.token.effect, effect);
        CountAppend(Progress(front), last.event.token.effect, effect);
      }
    }
  }

  lemma CountAppend(effects: seq<EffectIntent>, last: EffectIntent, effect: EffectIntent)
    ensures Count(effects + [last], effect) == Count(effects, effect) + if last == effect then 1 else 0
  {
    assert (effects + [last])[..|effects|] == effects;
  }

  /** Renaming, archiving and removing temporary state happen at most once in any run. */
  lemma IrreversibleEffectsHappenOnce(instanceId: nat, traceLimit: nat, events: seq<Event>, effect: EffectIntent)
    requires effect == RenameOutput || effect == InsertArchiveRow || effect == RemoveTemporaryState
    ensures Count(Acknowledged(Run(CommitTable, New(Working, instanceId, traceLimit), events).trace), effect) <= 1
  {
    CommitOrder(instanceId, traceLimit, events);
    var m := Run(CommitTable, New(Working, instanceId, traceLimit), events);
    hide Run, CommitTable;
    CountInProgress(m.trace, effect);
    assert Progress(m.trace) == CHAIN[..|Progress(m.trace)|];
    CountPrefix(CHAIN, |Progress(m.trace)|, effect);
    CountChain(effect);
  }

  lemma CountChain(effect: EffectIntent)
    requires effect == RenameOutput || effect == InsertArchiveRow || effect == RemoveTemporaryState
    ensures Count(CHAIN, effect) == 1
  {
    var first := [ValidateOutput, SynchronizeData, SynchronizeDirectory, AppendTransitionRecord, SynchronizeJournal];
    var second := first + [RenameOutput, SynchronizeDirectory, AppendTransitionRecord, SynchronizeJournal];
    var third := second + [InsertArchiveRow, AppendTransitionRecord, SynchronizeJournal];
    CountFour(first[..1], SynchronizeData, SynchronizeDirectory, AppendTransitionRecord, SynchronizeJournal, effect);
    assert first[..1] == [] + [ValidateOutput];
    CountAppend([], ValidateOutput, effect);
    CountFour(first, RenameOutput, SynchronizeDirectory, AppendTransitionRecord, SynchronizeJournal, effect);
    CountThree(second, InsertArchiveRow, AppendTransitionRecord, SynchronizeJournal, effect);
    CountThree(third, RemoveTemporaryState, AppendTransitionRecord, SynchronizeJournal, effect);
    assert first[..1] + [SynchronizeData, SynchronizeDirectory, AppendTransitionRecord, SynchronizeJournal] == first;
    assert CHAIN == third + [RemoveTemporaryState, AppendTransitionRecord, SynchronizeJournal];
  }

  function One(a: EffectIntent, effect: EffectIntent): nat {
    if a == effect then 1 else 0
  }

  lemma CountThree(s: seq<EffectIntent>, a: EffectIntent, b: EffectIntent, c: EffectIntent, effect: EffectIntent)
    ensures Count(s + [a, b, c], effect) == Count(s, effect) + One(a, effect) + One(b, effect) + One(c, effect)
  {
    CountAppend(s, a, effect);
    CountAppend(s + [a], b, effect);
    CountAppend(s + [a] + [b], c, effect);
    assert s + [a] + [b] + [c] == s + [a, b, c];
  }

  lemma CountFour(s: seq<EffectIntent>, a: EffectIntent, b: EffectIntent, c: EffectIntent, d: EffectIntent,
                  effect: EffectIntent)
    ensures Count(s + [a, b, c, d], effect)
         == Count(s, effect) + One(a, effect) + One(b, effect) + One(c, effect) + One(d, effect)
  {
    CountThree(s, a, b, c, effect);
    CountAppend(s + [a, b, c], d, effect);
    assert s + [a, b, c] + [d] == s + [a, b, c, d];
  }

  /** Whatever happens next, what is acknowledged stays acknowledged: the durable prefix never goes back. */
  lemma DurablePrefixNeverGoesBack(instanceId: nat, traceLimit: nat, events: seq<Event>, more: seq<Event>)
    ensures var m := Run(CommitTable, New(Working, instanceId, traceLimit), events);
            var later := Run(CommitTable, m, more);
            && Progress(m.trace) <= Progress(later.trace)
            && (m.state.At? && later.state.At?
                && RequiredAt(m.state.state).Some? && RequiredAt(later.state.state).Some? ==>
                  RequiredAt(m.state.state).value <= RequiredAt(later.state.state).value)
  {
    hide Run, CommitTable, CommitInv, VerifiedLast, RequiredAt, Progress;
    FreshOnTrack(instanceId, traceLimit);
    RunOnTrack(New(Working, instanceId, traceLimit), events);
    var m := Run(CommitTable, New(Working, instanceId, traceLimit), events);
    RunOnTrack(m, more);
    var later := Run(CommitTable, m, more);
    TrackIsPrefix(m);
    TrackIsPrefix(later);
    ProgressGrows(m.trace, later.trace);
  }

  lemma {:induction false} ProgressGrows(before: seq<Record<Commit>>, after: seq<Record<Commit>>)
    requires before <= after
    ensures Progress(before) <= Progress(after)
    decreases |after|
  {
    if |before| < |after| {
      ProgressGrows(before, after[..|after| - 1]);
    } else {
      assert before == after;
    }
  }
}
