/**
 What a commit machine can do: beside the order it enforces, every step of the protocol can
 be taken, every request is accepted exactly where it belongs, and each one ends where it
 should once its effects are acknowledged.
 */
module CommitRuns {
  import opened Wrappers
  import opened StateMachines
  import opened CommitLifecycles

  // ---------------------------------------------------------------------------
  // One step of the engine on the commit table

  /** The machine waits for the whole batch of a target, under the generation issued last. */
  ghost predicate Awaits(m: Machine<Commit>, target: Commit) {
    && m.state.EffectPending? && m.nextGeneration > 0
    && m.deferred == Some(Deferred(target, Batch(target), false))
    && m.pending == Tokens(m.instanceId, m.nextGeneration - 1, Batch(target))
  }

  ghost predicate RestsAt(m: Machine<Commit>, state: Commit) {
    m.state == At(state) && m.deferred.None?
  }

  predicate Room(m: Machine<Commit>, records: nat, batches: nat) {
    |m.trace| + records <= m.traceLimit && m.nextGeneration + batches <= U64_MAX
  }

  /** One more record, and one more generation if it asks for effects. */
  ghost predicate Stepped(m: Machine<Commit>, m': Machine<Commit>, batches: nat) {
    && |m'.trace| == |m.trace| + 1 && m'.nextGeneration == m.nextGeneration + batches
    && m'.instanceId == m.instanceId && m'.traceLimit == m.traceLimit
  }

  lemma EnterStep(m: Machine<Commit>, event: Event, next: Commit)
    requires Room(m, 1, if Batch(next) == [] then 0 else 1)
    ensures var (r, m') := Enter(m, event, next, Batch(next));
            && r.Ok? && Stepped(m, m', if Batch(next) == [] then 0 else 1)
            && if Batch(next) == [] then RestsAt(m', next) else Awaits(m', next)
  {
    hide Batch;
  }

  /** A request that the table knows is accepted and issues the batch of its target. */
  lemma AskStep(m: Machine<Commit>, state: Commit, event: Event, next: Commit)
    requires RestsAt(m, state) && !IsOutcome(event)
    requires CommitTable(state, event) == Go(next) && Batch(next) != [] && Room(m, 1, 1)
    ensures var (r, m') := Apply(CommitTable, m, event); r.Ok? && Stepped(m, m', 1) && Awaits(m', next)
  {
    hide CommitTable, Batch, Enter, Settle, Retry, Stepped, Awaits;
    EnterStep(m, event, next);
  }

  function Ack(instanceId: nat, effect: EffectIntent, generation: nat): Event {
    EffectAcknowledged(Token(instanceId, effect, generation))
  }

  lemma CarriesBatch(next: Commit)
    ensures Go(next) == Some((next, Batch(next)))
  {
  }

  /** A batch of one effect has one token, and nothing remains without it. */
  lemma SoleToken(instanceId: nat, generation: nat, effects: seq<EffectIntent>)
    requires |effects| == 1
    ensures var token := Token(instanceId, effects[0], generation);
            Tokens(instanceId, generation, effects) == [token] && Remove([token], token) == []
  {
  }

  /** One token is left of the target's batch, and none went wrong. */
  ghost predicate AwaitsOnly(m: Machine<Commit>, target: Commit, token: Token) {
    && m.state.EffectPending? && m.nextGeneration > 0 && m.pending == [token]
    && m.deferred == Some(Deferred(target, Batch(target), false))
  }

  /** Acknowledging the last effect of a batch goes on to what follows it. */
  lemma LastAckStep(m: Machine<Commit>, target: Commit, token: Token, next: Commit)
    requires AwaitsOnly(m, target, token) && AfterAcknowledgement(target) == Go(next)
    requires Room(m, 1, if Batch(next) == [] then 0 else 1)
    ensures var (r, m') := Apply(CommitTable, m, EffectAcknowledged(token));
            && r.Ok? && Stepped(m, m', if Batch(next) == [] then 0 else 1)
            && if Batch(next) == [] then RestsAt(m', next) else Awaits(m', next)
  {
    hide Batch, Enter, Retry, Advance, Stepped, AfterAcknowledgement, Go;
    var event := EffectAcknowledged(token);
    assert CommitTable(target, event) == Go(next);
    assert Remove([token], token) == [];
    hide CommitTable, Tokens, Remove;
    CarriesBatch(next);
    EnterStep(m, event, next);
  }

  /** Acknowledging the single effect of a batch goes on to what follows it. */
  lemma AckStep(m: Machine<Commit>, target: Commit, next: Commit)
    requires Awaits(m, target) && |Batch(target)| == 1 && AfterAcknowledgement(target) == Go(next)
    requires Room(m, 1, if Batch(next) == [] then 0 else 1)
    ensures var (r, m') := Apply(CommitTable, m, Ack(m.instanceId, Batch(target)[0], m.nextGeneration - 1));
            && r.Ok? && Stepped(m, m', if Batch(next) == [] then 0 else 1)
            && if Batch(next) == [] then RestsAt(m', next) else Awaits(m', next)
  {
    hide Apply, Stepped, CommitTable, AfterAcknowledgement, Batch, Remove;
    SoleToken(m.instanceId, m.nextGeneration - 1, Batch(target));
    LastAckStep(m, target, Token(m.instanceId, Batch(target)[0], m.nextGeneration - 1), next);
  }

  /** The same where nothing follows: the machine rests at the target. */
  lemma FinalAckStep(m: Machine<Commit>, target: Commit)
    requires Awaits(m, target) && |Batch(target)| == 1 && AfterAcknowledgement(target).None?
    requires Room(m, 1, 0)
    ensures var (r, m') := Apply(CommitTable, m, Ack(m.instanceId, Batch(target)[0], m.nextGeneration - 1));
            r.Ok? && Stepped(m, m', 0) && RestsAt(m', target)
  {
    hide Batch, Retry, Advance, AfterAcknowledgement;
    var event := Ack(m.instanceId, Batch(target)[0], m.nextGeneration - 1);
    SoleToken(m.instanceId, m.nextGeneration - 1, Batch(target));
    assert CommitTable(target, event).None?;
    hide CommitTable, Tokens, Remove;
  }

  // ---------------------------------------------------------------------------
  // A whole phase

  /** A row of targets, each reached by acknowledging the one effect of the previous one; the last one rests. */
  predicate Chained(path: seq<Commit>) {
    && |path| >= 2 && Batch(path[|path| - 1]) == []
    && (forall i :: 0 <= i < |path| - 1 ==>
          |Batch(path[i])| == 1 && AfterAcknowledgement(path[i]) == Go(path[i + 1]))
  }

  /** Acknowledgements of the given effects under consecutive generations. */
  function Acks(instanceId: nat, generation: nat, effects: seq<EffectIntent>): seq<Event>
    decreases |effects|
  {
    if effects == [] then []
    else [Ack(instanceId, effects[0], generation)] + Acks(instanceId, generation + 1, effects[1..])
  }

  /** The effects that a row of targets asks for. */
  function EffectsOf(path: seq<Commit>): seq<EffectIntent>
    requires Chained(path)
    decreases |path|
  {
    [Batch(path[0])[0]] + if |path| == 2 then [] else EffectsOf(path[1..])
  }

  /** All events were accepted, they asked for so many batches, and the machine rests at `state`. */
  ghost predicate Completes(m: Machine<Commit>, events: seq<Event>, batches: nat, state: Commit) {
    var m' := Run(CommitTable, m, events);
    && RestsAt(m', state) && |m'.trace| == |m.trace| + |events|
    && m'.nextGeneration == m.nextGeneration + batches
    && m'.instanceId == m.instanceId && m'.traceLimit == m.traceLimit
  }

  lemma {:induction false} AcksComplete(m: Machine<Commit>, path: seq<Commit>)
    requires Chained(path) && Awaits(m, path[0]) && Room(m, |path| - 1, |path| - 2)
    ensures Completes(m, Acks(m.instanceId, m.nextGeneration - 1, EffectsOf(path)), |path| - 2, path[|path| - 1])
    decreases |path|
  {
    var effects := EffectsOf(path);
    var events := Acks(m.instanceId, m.nextGeneration - 1, effects);
    var rest := path[1..];
    assert |Batch(path[0])| == 1 && AfterAcknowledgement(path[0]) == Go(path[1]);
    if |path| > 2 { assert Chained(rest); }
    hide Batch, AfterAcknowledgement, CommitTable, Apply, Awaits;
    assert |path| > 2 ==> Batch(path[1]) != [] by { if |path| > 2 { assert |Batch(rest[0])| == 1; } }
    AckStep(m, path[0], path[1]);
    assert events[0] == Ack(m.instanceId, Batch(path[0])[0], m.nextGeneration - 1);
    assert effects[1..] == if |path| == 2 then [] else EffectsOf(rest);
    assert events[1..] == Acks(m.instanceId, m.nextGeneration, effects[1..]);
    var m' := Apply(CommitTable, m, events[0]).1;
    if |path| > 2 {
      AcksComplete(m', rest);
    } else {
      assert Run(CommitTable, m', events[1..]) == m';
    }
  }

  predicate Commits(state: Commit) {
    state.Working? || state.Prepared? || state.Renamed? || state.Archived? || state.Cleaned?
  }

  /** The request that takes a commit on from a durable state. */
  function RequestFor(state: Commit): Event
    requires Commits(state)
  {
    match state
    case Working => Prepare
    case Prepared => Rename
    case Renamed => Archive
    case Archived => Cleanup
    case Cleaned => Reconcile
  }

  function NextDurable(state: Commit): Commit
    requires Commits(state)
  {
    match state
    case Working => Prepared
    case Prepared => Renamed
    case Renamed => Archived
    case Archived => Cleaned
    case Cleaned => Reconciled
  }

  /** The effects to be acknowledged on the way to the next durable state. */
  function PhaseEffects(state: Commit): seq<EffectIntent>
    requires Commits(state)
  {
    match state
    case Working =>
      [ValidateOutput, SynchronizeData, SynchronizeDirectory, AppendTransitionRecord, SynchronizeJournal]
    case Prepared => [RenameOutput, SynchronizeDirectory, AppendTransitionRecord, SynchronizeJournal]
    case Renamed => [InsertArchiveRow, AppendTransitionRecord, SynchronizeJournal]
    case Archived => [RemoveTemporaryState, AppendTransitionRecord, SynchronizeJournal]
    case Cleaned => [VerifyArchiveOutputPair]
  }

  function PhasePath(state: Commit): seq<Commit>
    requires Commits(state)
  {
    match state
    case Working =>
      [Preparing, DataSynchronizing, PreparedDirectorySynchronizing, PreparedRecordAppending,
       PreparedJournalSynchronizing, Prepared]
    case Prepared =>
      [Renaming, RenameDirectorySynchronizing, RenamedRecordAppending, RenamedJournalSynchronizing, Renamed]
    case Renamed => [Archiving, ArchivedRecordAppending, ArchivedJournalSynchronizing, Archived]
    case Archived => [Cleaning, CleanedRecordAppending, CleanedJournalSynchronizing, Cleaned]
    case Cleaned => [Reconciling, Reconciled]
  }

  /** Acknowledging `effect`, the only one that `target` needs, leads to `next`. */
  predicate Leads(target: Commit, effect: EffectIntent, next: Commit) {
    Batch(target) == [effect] && AfterAcknowledgement(target) == Go(next)
  }

  ghost predicate LeadsAlong(path: seq<Commit>, effects: seq<EffectIntent>) {
    && |path| == |effects| + 1 && |effects| >= 1 && Batch(path[|effects|]) == []
    && forall i :: 0 <= i < |effects| ==> Leads(path[i], effects[i], path[i + 1])
  }

  lemma WorkingLeads()
    ensures LeadsAlong(PhasePath(Working), PhaseEffects(Working))
  {
    assert Leads(Preparing, ValidateOutput, DataSynchronizing);
    assert Leads(DataSynchronizing, SynchronizeData, PreparedDirectorySynchronizing);
    assert Leads(PreparedDirectorySynchronizing, SynchronizeDirectory, PreparedRecordAppending);
    assert Leads(PreparedRecordAppending, AppendTransitionRecord, PreparedJournalSynchronizing);
    assert Leads(PreparedJournalSynchronizing, SynchronizeJournal, Prepared);
    hide Leads;
  }

  lemma PreparedLeads()
    ensures LeadsAlong(PhasePath(Prepared), PhaseEffects(Prepared))
  {
    assert Leads(Renaming, RenameOutput, RenameDirectorySynchronizing);
    assert Leads(RenameDirectorySynchronizing, SynchronizeDirectory, RenamedRecordAppending);
    assert Leads(RenamedRecordAppending, AppendTransitionRecord, RenamedJournalSynchronizing);
    assert Leads(RenamedJournalSynchronizing, SynchronizeJournal, Renamed);
    hide Leads;
  }

  lemma RenamedLeads()
    ensures LeadsAlong(PhasePath(Renamed), PhaseEffects(Renamed))
  {
    assert Leads(Archiving, InsertArchiveRow, ArchivedRecordAppending);
    assert Leads(ArchivedRecordAppending, AppendTransitionRecord, ArchivedJournalSynchronizing);
    assert Leads(ArchivedJournalSynchronizing, SynchronizeJournal, Archived);
    hide Leads;
  }

  lemma ArchivedLeads()
    ensures LeadsAlong(PhasePath(Archived), PhaseEffects(Archived))
  {
    assert Leads(Cleaning, RemoveTemporaryState, CleanedRecordAppending);
    assert Leads(CleanedRecordAppending, AppendTransitionRecord, CleanedJournalSynchronizing);
    assert Leads(CleanedJournalSynchronizing, SynchronizeJournal, Cleaned);
    hide Leads;
  }

  lemma CleanedLeads()
    ensures LeadsAlong(PhasePath(Cleaned), PhaseEffects(Cleaned))
  {
    assert Leads(Reconciling, VerifyArchiveOutputPair, Reconciled);
    hide Leads;
  }

  lemma PhaseLeads(state: Commit)
    requires Commits(state)
    ensures LeadsAlong(PhasePath(state), PhaseEffects(state))
  {
    hide LeadsAlong, PhasePath, PhaseEffects;
    match state
    case Working => WorkingLeads();
    case Prepared => PreparedLeads();
    case Renamed => RenamedLeads();
    case Archived => ArchivedLeads();
    case Cleaned => CleanedLeads();
  }

  lemma PhaseBegins(state: Commit)
    requires Commits(state)
    ensures |PhasePath(state)| > 0 && PhasePath(state)[|PhasePath(state)| - 1] == NextDurable(state)
    ensures CommitTable(state, RequestFor(state)) == Go(PhasePath(state)[0])
  {
    hide Batch, AfterAcknowledgement;
  }

  lemma PhaseIsChained(state: Commit)
    requires Commits(state)
    ensures Chained(PhasePath(state)) && EffectsOf(PhasePath(state)) == PhaseEffects(state)
    ensures |PhasePath(state)| == |PhaseEffects(state)| + 1 && Batch(PhasePath(state)[0]) != []
  {
    PhaseLeads(state);
    hide PhasePath, PhaseEffects, Batch, AfterAcknowledgement;
    var (path, effects) := (PhasePath(state), PhaseEffects(state));
    forall i | 0 <= i < |effects|
      ensures Batch(path[i]) == [effects[i]] && AfterAcknowledgement(path[i]) == Go(path[i + 1])
    {
      assert Leads(path[i], effects[i], path[i + 1]);
    }
    EffectsAt(path, effects);
  }

  lemma {:induction false} EffectsAt(path: seq<Commit>, effects: seq<EffectIntent>)
    requires Chained(path) && |effects| == |path| - 1
    requires forall i :: 0 <= i < |effects| ==> Batch(path[i]) == [effects[i]]
    ensures EffectsOf(path) == effects
    decreases |path|
  {
    hide Batch, AfterAcknowledgement;
    assert Batch(path[0]) == [effects[0]];
    if |path| == 2 {
      assert effects == [effects[0]];
    } else {
      var rest := path[1..];
      assert Chained(rest) by {
        forall i | 0 <= i < |rest| - 1
          ensures |Batch(rest[i])| == 1 && AfterAcknowledgement(rest[i]) == Go(rest[i + 1])
        {
          assert rest[i] == path[i + 1] && rest[i + 1] == path[i + 2];
        }
      }
      forall i | 0 <= i < |effects| - 1 ensures Batch(rest[i]) == [effects[1..][i]] {
        assert rest[i] == path[i + 1];
      }
      EffectsAt(rest, effects[1..]);
      assert effects == [effects[0]] + effects[1..];
    }
  }

  /** The request of a durable state, and then one acknowledgement after the other. */
  function PhaseEvents(instanceId: nat, generation: nat, state: Commit): seq<Event>
    requires Commits(state)
  {
    [RequestFor(state)] + Acks(instanceId, generation, PhaseEffects(state))
  }

  lemma PhaseRuns(m: Machine<Commit>, state: Commit)
    requires RestsAt(m, state) && Commits(state) && Room(m, 1 + |PhaseEffects(state)|, |PhaseEffects(state)|)
    ensures Completes(m, PhaseEvents(m.instanceId, m.nextGeneration, state), |PhaseEffects(state)|, NextDurable(state))
  {
    var (path, request) := (PhasePath(state), RequestFor(state));
    PhaseIsChained(state);
    PhaseBegins(state);
    hide Batch, CommitTable, Apply, Awaits, PhasePath, PhaseEffects, Acks, EffectsOf, Chained;
    AskStep(m, state, request, path[0]);
    var m' := Apply(CommitTable, m, request).1;
    AcksComplete(m', path);
    var events := PhaseEvents(m.instanceId, m.nextGeneration, state);
    assert events[1..] == Acks(m.instanceId, m.nextGeneration, PhaseEffects(state));
  }

  // ---------------------------------------------------------------------------
  // Over every run

  predicate Resting(state: Commit) {
    Commits(state) || state.Reconciled? || state.Inconsistent? || state.Cancelled?
  }

  lemma QuietIsResting(state: Commit, token: Token)
    requires CommitTable(state, EffectAcknowledged(token)).None?
    ensures Resting(state)
  {
    hide Batch;
  }

  lemma RunReaches(instanceId: nat, traceLimit: nat, events: seq<Event>)
    ensures var m := Run(CommitTable, New(Working, instanceId, traceLimit), events);
            && CommitInv(m) && VerifiedLast(m)
            && m.instanceId == instanceId && m.traceLimit == traceLimit
            && (m.state.At? ==> RestsAt(m, m.state.state) && Resting(m.state.state))
  {
    hide Run, CommitTable, VerifiedLast, OnTrack, Batch, Resting;
    var start := New(Working, instanceId, traceLimit);
    FreshOnTrack(instanceId, traceLimit);
    RunOnTrack(start, events);
    RunKeepsIdentity(start, events);
    var m := Run(CommitTable, start, events);
    if m.state.At? {
      assert m.deferred.None? && Quiet(CommitTable, m.state.state);
      QuietIsResting(m.state.state, Token(0, BeginJob, 0));
    }
  }

  lemma {:induction false} RunKeepsIdentity(m: Machine<Commit>, events: seq<Event>)
    requires CommitInv(m)
    ensures var m' := Run(CommitTable, m, events); m'.instanceId == m.instanceId && m'.traceLimit == m.traceLimit
    decreases |events|
  {
    if events != [] {
      hide Apply, CommitTable, Inv, CommitInv, WellFormed;
      StepOnTrack(m, events[0]);
      CommitIsCorrelated(m);
      TableIsWellFormed();
      ApplyKeeps(CommitTable, m, events[0]);
      if Apply(CommitTable, m, events[0]).0.Ok? { AcceptedStep(CommitTable, m, events[0]); }
      RunKeepsIdentity(Apply(CommitTable, m, events[0]).1, events[1..]);
    }
  }

  /**
   However a run came to rest at a durable state short of reconciled: with room left, the
   request that belongs to the state is accepted, acknowledging its effects one after the other
   is accepted, and the machine then rests at the next durable state with exactly the effects
   of the chain up to there acknowledged.
   */
  lemma PhaseCompletes(instanceId: nat, traceLimit: nat, events: seq<Event>)
    ensures var m := Run(CommitTable, New(Working, instanceId, traceLimit), events);
            m.state.At? && Commits(m.state.state)
            && Room(m, 1 + |PhaseEffects(m.state.state)|, |PhaseEffects(m.state.state)|) ==>
              var state := m.state.state;
              var phase := PhaseEvents(instanceId, m.nextGeneration, state);
              var m' := Run(CommitTable, m, phase);
              && m'.state == At(NextDurable(state)) && |m'.trace| == |m.trace| + |phase|
              && Progress(m'.trace) == CHAIN[..RequiredAt(NextDurable(state)).value]
  {
    hide Run, CommitTable, Progress, Completes, PhaseEffects, PhaseEvents;
    var start := New(Working, instanceId, traceLimit);
    var m := Run(CommitTable, start, events);
    RunReaches(instanceId, traceLimit, events);
    if m.state.At? && Commits(m.state.state)
       && Room(m, 1 + |PhaseEffects(m.state.state)|, |PhaseEffects(m.state.state)|) {
      var state := m.state.state;
      var phase := PhaseEvents(instanceId, m.nextGeneration, state);
      PhaseRuns(m, state);
      assert Completes(m, phase, |PhaseEffects(state)|, NextDurable(state));
      CompletesMeans(m, phase, |PhaseEffects(state)|, NextDurable(state));
      RunConcat(CommitTable, start, events, phase);
      CommitOrder(instanceId, traceLimit, events + phase);
    }
  }

  lemma CompletesMeans(m: Machine<Commit>, events: seq<Event>, batches: nat, state: Commit)
    requires Completes(m, events, batches, state)
    ensures var m' := Run(CommitTable, m, events);
            m'.state == At(state) && |m'.trace| == |m.trace| + |events|
  {
  }

  // ---------------------------------------------------------------------------
  // The whole protocol can be carried out

  lemma CompletesInTurn(m: Machine<Commit>, first: seq<Event>, a: nat, middle: Commit, second: seq<Event>, b: nat,
                        last: Commit)
    requires Completes(m, first, a, middle) && Completes(Run(CommitTable, m, first), second, b, last)
    ensures Completes(m, first + second, a + b, last)
  {
    hide Run, CommitTable;
    RunConcat(CommitTable, m, first, second);
  }

  /** The events of a full commit, each acknowledgement naming the generation of its batch. */
  function FullCommit(instanceId: nat): seq<Event> {
    UpToArchived(instanceId) + PhaseEvents(instanceId, 13, Archived) + PhaseEvents(instanceId, 16, Cleaned)
  }

  /** Appends the next phase to a commit that has come as far as `state`. */
  lemma NextPhase(start: Machine<Commit>, events: seq<Event>, batches: nat, state: Commit)
    requires Completes(start, events, batches, state) && Commits(state) && start.nextGeneration == 1
    requires |start.trace| + |events| + 1 + |PhaseEffects(state)| <= start.traceLimit
    requires batches + |PhaseEffects(state)| < U64_MAX
    ensures Completes(start, events + PhaseEvents(start.instanceId, 1 + batches, state),
                      batches + |PhaseEffects(state)|, NextDurable(state))
    ensures |PhaseEvents(start.instanceId, 1 + batches, state)| == 1 + |PhaseEffects(state)|
  {
    AcksLength(start.instanceId, 1 + batches, PhaseEffects(state));
    assert |PhaseEvents(start.instanceId, 1 + batches, state)| == 1 + |PhaseEffects(state)|;
    hide Run, CommitTable, PhaseEffects, PhaseEvents, Acks;
    var m := Run(CommitTable, start, events);
    PhaseRuns(m, state);
    CompletesInTurn(start, events, batches, state, PhaseEvents(start.instanceId, 1 + batches, state),
                    |PhaseEffects(state)|, NextDurable(state));
  }

  lemma PhaseSizes()
    ensures |PhaseEffects(Working)| == 5 && |PhaseEffects(Prepared)| == 4 && |PhaseEffects(Renamed)| == 3
    ensures |PhaseEffects(Archived)| == 3 && |PhaseEffects(Cleaned)| == 1
  {
  }

  lemma {:induction false} AcksLength(instanceId: nat, generation: nat, effects: seq<EffectIntent>)
    ensures |Acks(instanceId, generation, effects)| == |effects|
    decreases |effects|
  {
    if effects != [] { AcksLength(instanceId, generation + 1, effects[1..]); }
  }

  lemma StartCompletes(start: Machine<Commit>)
    requires RestsAt(start, Working)
    ensures Completes(start, [], 0, Working)
  {
  }

  /** The first three phases, up to the archived output. */
  function UpToArchived(instanceId: nat): seq<Event> {
    PhaseEvents(instanceId, 1, Working) + PhaseEvents(instanceId, 6, Prepared) + PhaseEvents(instanceId, 10, Renamed)
  }

  lemma UpToArchivedCompletes(start: Machine<Commit>)
    requires RestsAt(start, Working) && start.nextGeneration == 1 && |start.trace| + 15 <= start.traceLimit
    ensures Completes(start, UpToArchived(start.instanceId), 12, Archived)
    ensures |UpToArchived(start.instanceId)| == 15
  {
    hide CommitTable, PhaseEffects, PhaseEvents, Completes, Run;
    var id := start.instanceId;
    PhaseSizes();
    StartCompletes(start);
    NextPhase(start, [], 0, Working);
    var one := PhaseEvents(id, 1, Working);
    assert [] + one == one;
    NextPhase(start, one, 5, Prepared);
    NextPhase(start, one + PhaseEvents(id, 6, Prepared), 9, Renamed);
  }

  lemma FullCommitCompletes(start: Machine<Commit>)
    requires RestsAt(start, Working) && start.nextGeneration == 1 && |start.trace| + 21 <= start.traceLimit
    ensures Completes(start, FullCommit(start.instanceId), 16, Reconciled)
    ensures |FullCommit(start.instanceId)| == 21
  {
    hide CommitTable, PhaseEffects, PhaseEvents, Completes, Run, UpToArchived;
    var id := start.instanceId;
    PhaseSizes();
    UpToArchivedCompletes(start);
    NextPhase(start, UpToArchived(id), 12, Archived);
    NextPhase(start, UpToArchived(id) + PhaseEvents(id, 13, Archived), 15, Cleaned);
  }

  /** A fresh machine with room for twenty-one records carries out the whole commit, every event accepted. */
  lemma FullCommitReconciles(instanceId: nat, traceLimit: nat)
    requires traceLimit >= 21
    ensures var m := Run(CommitTable, New(Working, instanceId, traceLimit), FullCommit(instanceId));
            m.state == At(Reconciled) && |m.trace| == |FullCommit(instanceId)| == 21 && Progress(m.trace) == CHAIN
  {
    hide CommitTable, FullCommit, Run, Progress, Completes, VerifiedLast;
    FullCommitCompletes(New(Working, instanceId, traceLimit));
    CompletesMeans(New(Working, instanceId, traceLimit), FullCommit(instanceId), 16, Reconciled);
    CommitOrder(instanceId, traceLimit, FullCommit(instanceId));
    WholeChain();
  }

  lemma WholeChain()
    ensures CHAIN[..15] == CHAIN
  {
  }

  /** One event moves the protocol by at most one step. */
  lemma OneStepAtATime(m: Machine<Commit>, event: Event)
    requires CommitInv(m)
    ensures |Progress(Apply(CommitTable, m, event).1.trace)| <= |Progress(m.trace)| + 1
  {
    hide Apply, CommitTable, Inv, WellFormed;
    TableIsWellFormed();
    ApplyKeeps(CommitTable, m, event);
    if Apply(CommitTable, m, event).0.Ok? {
      AcceptedStep(CommitTable, m, event);
      var m' := Apply(CommitTable, m, event).1;
      assert m'.trace == m.trace + [m'.trace[|m.trace|]];
      ProgressAppend(m.trace, m'.trace[|m.trace|]);
    }
  }

  /** A run that has taken `n` steps or more had taken exactly `n` at some point. */
  lemma {:induction false} PassesThrough(instanceId: nat, traceLimit: nat, events: seq<Event>, n: nat)
    requires |Progress(Run(CommitTable, New(Working, instanceId, traceLimit), events).trace)| >= n
    ensures exists k :: 0 <= k <= |events|
              && |Progress(Run(CommitTable, New(Working, instanceId, traceLimit), events[..k]).trace)| == n
    decreases |events|
  {
    var start := New(Working, instanceId, traceLimit);
    var last := |events|;
    assert events[..last] == events;
    if |Progress(Run(CommitTable, start, events).trace)| > n {
      assert events != [];
      var front := events[..last - 1];
      assert events == front + [events[last - 1]];
      RunAppend(CommitTable, start, front, events[last - 1]);
      RunReaches(instanceId, traceLimit, front);
      OneStepAtATime(Run(CommitTable, start, front), events[last - 1]);
      hide Run, CommitTable, Progress, Apply;
      PassesThrough(instanceId, traceLimit, front, n);
      var k :| 0 <= k <= |front| && |Progress(Run(CommitTable, start, front[..k]).trace)| == n;
      assert front[..k] == events[..k];
    } else {
      assert |Progress(Run(CommitTable, start, events[..last]).trace)| == n;
    }
  }

  /** Every prefix of the chain is what some run has acknowledged. */
  lemma EveryPrefixIsReached(instanceId: nat, traceLimit: nat, n: nat)
    requires traceLimit >= 21 && n <= |CHAIN|
    ensures exists events ::
              Progress(Run(CommitTable, New(Working, instanceId, traceLimit), events).trace) == CHAIN[..n]
  {
    hide Run, CommitTable, Progress, FullCommit;
    FullCommitReconciles(instanceId, traceLimit);
    var events := FullCommit(instanceId);
    PassesThrough(instanceId, traceLimit, events, n);
    var k :| 0 <= k <= |events|
        && |Progress(Run(CommitTable, New(Working, instanceId, traceLimit), events[..k]).trace)| == n;
    CommitOrder(instanceId, traceLimit, events[..k]);
    PrefixBySize(Progress(Run(CommitTable, New(Working, instanceId, traceLimit), events[..k]).trace), CHAIN);
  }

  lemma PrefixBySize<T>(a: seq<T>, b: seq<T>)
    requires a <= b
    ensures a == b[..|a|]
  {
  }

  // ---------------------------------------------------------------------------
  // What is accepted at rest, and where it ends

  /** Every request and the states at which it belongs. */
  predicate Belongs(event: Event, state: Commit) {
    || (event.Prepare? && state.Working?)
    || (event.Rename? && state.Prepared?)
    || (event.Archive? && state.Renamed?)
    || (event.Cleanup? && state.Archived?)
    || ((event.Reconcile? || event.Restart?)
        && (state.Prepared? || state.Renamed? || state.Archived? || state.Cleaned?))
    || ((event.Fail? || event.Cancel?)
        && (state.Working? || state.Prepared? || state.Renamed? || state.Archived? || state.Cleaned?))
  }

  lemma TableKnowsRequests(state: Commit, event: Event)
    requires Resting(state)
    ensures CommitTable(state, event).Some? <==> Belongs(event, state)
  {
    hide Batch;
  }

  /** A resting machine with room accepts exactly the requests that belong to its state. */
  lemma RestAcceptsExactly(instanceId: nat, traceLimit: nat, events: seq<Event>, event: Event)
    ensures var m := Run(CommitTable, New(Working, instanceId, traceLimit), events);
            m.state.At? && Room(m, 1, 1) ==>
              (Apply(CommitTable, m, event).0.Ok? <==> Belongs(event, m.state.state))
  {
    hide Run, CommitTable, CommitInv, VerifiedLast, Resting, Belongs;
    RunReaches(instanceId, traceLimit, events);
    var m := Run(CommitTable, New(Working, instanceId, traceLimit), events);
    if m.state.At? {
      TableKnowsRequests(m.state.state, event);
      OutcomesDoNotBelong(event, m.state.state);
    }
  }

  lemma OutcomesDoNotBelong(event: Event, state: Commit)
    ensures Belongs(event, state) ==> !IsOutcome(event)
  {
  }

  /** One request with a single effect, acknowledged, leaves the machine at rest. */
  lemma AskAndAck(m: Machine<Commit>, state: Commit, event: Event, target: Commit, effect: EffectIntent, next: Commit)
    requires RestsAt(m, state) && !IsOutcome(event) && CommitTable(state, event) == Go(target) && Room(m, 2, 1)
    requires Batch(target) == [effect]
    requires if target == next then AfterAcknowledgement(target).None?
             else AfterAcknowledgement(target) == Go(next) && Batch(next) == []
    ensures Completes(m, [event, Ack(m.instanceId, effect, m.nextGeneration)], 1, next)
  {
    hide CommitTable, Batch, Apply, AfterAcknowledgement, Awaits;
    AskStep(m, state, event, target);
    var m1 := Apply(CommitTable, m, event).1;
    var ack := Ack(m.instanceId, effect, m.nextGeneration);
    if target == next { FinalAckStep(m1, target); } else { AckStep(m1, target, next); }
    TwoEvents(m, event, ack);
  }

  lemma TwoEvents(m: Machine<Commit>, first: Event, second: Event)
    ensures Run(CommitTable, m, [first, second]) == Apply(CommitTable, Apply(CommitTable, m, first).1, second).1
  {
    hide Apply, CommitTable;
    var m1 := Apply(CommitTable, m, first).1;
    assert [first, second][1..] == [second] && [second][1..] == [];
    assert Run(CommitTable, m1, [second]) == Apply(CommitTable, m1, second).1;
  }

  /** The check that a restarted or reconciled commit performs at a durable state. */
  function CheckAt(state: Commit): EffectIntent
    requires state.Prepared? || state.Renamed? || state.Archived? || state.Cleaned?
  {
    if state.Prepared? then RevalidatePreparedOutput
    else if state.Renamed? then VerifyFinalArtifact
    else VerifyArchiveOutputPair
  }

  /**
   However a run came to rest at a durable state, restarting it, or reconciling it before it is
   cleaned, requests the check of that state, and the acknowledged check returns to it.
   */
  lemma CheckReturns(instanceId: nat, traceLimit: nat, events: seq<Event>, event: Event)
    requires event == Restart || event == Reconcile
    ensures var m := Run(CommitTable, New(Working, instanceId, traceLimit), events);
            m.state.At? && Room(m, 2, 1)
            && (m.state.state.Prepared? || m.state.state.Renamed? || m.state.state.Archived?
                || (m.state.state.Cleaned? && event == Restart)) ==>
              Completes(m, [event, Ack(instanceId, CheckAt(m.state.state), m.nextGeneration)], 1, m.state.state)
  {
    hide Run, CommitInv, VerifiedLast, Completes, CommitTable, Batch, AfterAcknowledgement;
    RunReaches(instanceId, traceLimit, events);
    var m := Run(CommitTable, New(Working, instanceId, traceLimit), events);
    if m.state.At? && Room(m, 2, 1) {
      var state := m.state.state;
      if state.Prepared? || state.Renamed? || state.Archived? || (state.Cleaned? && event == Restart) {
        var target := match state case Prepared => VerifyingPrepared case Renamed => VerifyingRenamed
                                  case Archived => VerifyingArchived case _ => VerifyingCleaned;
        CheckIsMade(state, event, target);
        AskAndAck(m, state, event, target, CheckAt(state), state);
      }
    }
  }

  lemma CheckIsMade(state: Commit, event: Event, target: Commit)
    requires event == Restart || event == Reconcile
    requires (state.Prepared? && target.VerifyingPrepared?) || (state.Renamed? && target.VerifyingRenamed?)
             || (state.Archived? && target.VerifyingArchived?)
             || (state.Cleaned? && target.VerifyingCleaned? && event == Restart)
    ensures CommitTable(state, event) == Go(target) && Batch(target) == [CheckAt(state)]
    ensures AfterAcknowledgement(target) == Go(state) && Batch(state) == [] && target != state
  {
  }

  /** Failing at a durable state, or while working, preserves diagnostics and ends inconsistent. */
  lemma FailEndsInconsistent(instanceId: nat, traceLimit: nat, events: seq<Event>)
    ensures var m := Run(CommitTable, New(Working, instanceId, traceLimit), events);
            m.state.At? && Commits(m.state.state) && Room(m, 2, 1) ==>
              Completes(m, [Fail, Ack(instanceId, PreserveDiagnostics, m.nextGeneration)], 1, Inconsistent)
  {
    hide Run, CommitInv, VerifiedLast, Completes, CommitTable, Batch, AfterAcknowledgement;
    RunReaches(instanceId, traceLimit, events);
    var m := Run(CommitTable, New(Working, instanceId, traceLimit), events);
    if m.state.At? && Commits(m.state.state) && Room(m, 2, 1) {
      LeavingMoves(m.state.state);
      AskAndAck(m, m.state.state, Fail, Inconsistent, PreserveDiagnostics, Inconsistent);
    }
  }

  lemma LeavingMoves(state: Commit)
    requires Commits(state)
    ensures CommitTable(state, Fail) == Go(Inconsistent) && Batch(Inconsistent) == [PreserveDiagnostics]
    ensures CommitTable(state, Cancel) == Go(Cancelling)
    ensures Batch(Cancelling) == [PreserveDiagnostics, DrainInFlightEffect]
    ensures Batch(Cancelled) == [ReleaseResources] && AfterAcknowledgement(Cancelling) == Go(Cancelled)
    ensures AfterAcknowledgement(Cancelled).None? && AfterAcknowledgement(Inconsistent).None?
  {
  }

  /** The first of two effects acknowledged, the other one is still awaited. */
  lemma FirstAckStep(m: Machine<Commit>, target: Commit, first: EffectIntent, second: EffectIntent)
    requires Awaits(m, target) && first != second && Room(m, 1, 0)
    requires Batch(target) == [first, second] || Batch(target) == [second, first]
    ensures var (r, m') := Apply(CommitTable, m, Ack(m.instanceId, first, m.nextGeneration - 1));
            && r.Ok? && Stepped(m, m', 0)
            && AwaitsOnly(m', target, Token(m.instanceId, second, m.nextGeneration - 1))
  {
    hide CommitTable, Batch, Tokens, Remove, Enter, Retry, Advance, Position;
    PairOfTokens(m.instanceId, m.nextGeneration - 1, Batch(target), first, second);
    assert Settle(CommitTable, m, m.deferred.value, Ack(m.instanceId, first, m.nextGeneration - 1)).0.Ok?;
  }

  lemma PairOfTokens(instanceId: nat, generation: nat, effects: seq<EffectIntent>, first: EffectIntent,
                     second: EffectIntent)
    requires first != second && (effects == [first, second] || effects == [second, first])
    ensures var (a, b) := (Token(instanceId, first, generation), Token(instanceId, second, generation));
            var tokens := Tokens(instanceId, generation, effects);
            a in tokens && Remove(tokens, a) == [b] && Remove([b], b) == []
  {
    var (a, b) := (Token(instanceId, first, generation), Token(instanceId, second, generation));
    var tokens := Tokens(instanceId, generation, effects);
    assert tokens == [a, b] || tokens == [b, a];
    assert a in tokens && Position(tokens, a) == if tokens[0] == a then 0 else 1;
  }

  /** The events of a cancellation, its first two effects acknowledged in the given order. */
  function Cancellation(instanceId: nat, generation: nat, first: EffectIntent, second: EffectIntent): seq<Event> {
    [Cancel, Ack(instanceId, first, generation), Ack(instanceId, second, generation),
     Ack(instanceId, ReleaseResources, generation + 1)]
  }

  lemma FourEvents(m: Machine<Commit>, a: Event, b: Event, c: Event, d: Event)
    ensures Run(CommitTable, m, [a, b, c, d])
         == Apply(CommitTable, Apply(CommitTable, Apply(CommitTable, Apply(CommitTable, m, a).1, b).1, c).1, d).1
  {
    assert [a, b] + [c, d] == [a, b, c, d];
    RunConcat(CommitTable, m, [a, b], [c, d]);
    TwoEvents(m, a, b);
    TwoEvents(Run(CommitTable, m, [a, b]), c, d);
  }

  lemma CancellationRuns(m: Machine<Commit>, state: Commit, first: EffectIntent, second: EffectIntent)
    requires RestsAt(m, state) && Commits(state) && Room(m, 4, 2)
    requires (first == PreserveDiagnostics && second == DrainInFlightEffect)
             || (first == DrainInFlightEffect && second == PreserveDiagnostics)
    ensures Completes(m, Cancellation(m.instanceId, m.nextGeneration, first, second), 2, Cancelled)
  {
    hide CommitTable, Batch, Apply, AfterAcknowledgement, Awaits, AwaitsOnly, Run;
    LeavingMoves(state);
    var (id, g) := (m.instanceId, m.nextGeneration);
    AskStep(m, state, Cancel, Cancelling);
    var m1 := Apply(CommitTable, m, Cancel).1;
    FirstAckStep(m1, Cancelling, first, second);
    var m2 := Apply(CommitTable, m1, Ack(id, first, g)).1;
    LastAckStep(m2, Cancelling, Token(id, second, g), Cancelled);
    var m3 := Apply(CommitTable, m2, Ack(id, second, g)).1;
    FinalAckStep(m3, Cancelled);
    FourEvents(m, Cancel, Ack(id, first, g), Ack(id, second, g), Ack(id, ReleaseResources, g + 1));
  }

  /**
   Cancelling at a durable state, or while working, preserves diagnostics and drains what is in
   flight, in either order, then releases resources and ends cancelled.
   */
  lemma CancelEndsCancelled(instanceId: nat, traceLimit: nat, events: seq<Event>, first: EffectIntent,
                            second: EffectIntent)
    requires (first == PreserveDiagnostics && second == DrainInFlightEffect)
             || (first == DrainInFlightEffect && second == PreserveDiagnostics)
    ensures var m := Run(CommitTable, New(Working, instanceId, traceLimit), events);
            m.state.At? && Commits(m.state.state) && Room(m, 4, 2) ==>
              Completes(m, Cancellation(instanceId, m.nextGeneration, first, second), 2, Cancelled)
  {
    hide Run, CommitInv, VerifiedLast, Completes, CommitTable;
    RunReaches(instanceId, traceLimit, events);
    var m := Run(CommitTable, New(Working, instanceId, traceLimit), events);
    if m.state.At? && Commits(m.state.state) && Room(m, 4, 2) {
      CancellationRuns(m, m.state.state, first, second);
    }
  }
}
