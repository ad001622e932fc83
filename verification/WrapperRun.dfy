/**
 The moves of the eight wrapper lifecycles, from rest to rest, and that each kind of machine
 does exactly what its list says.
 */
module WrapperRuns {
  import opened StateMachines
  import opened WrapperLifecycles
  import opened MoveLists

  // ---------------------------------------------------------------------------
  // The moves of each kind

  const JOB_MOVES: seq<Move<JobState>> := [
    Move([JobQueued], Start, JobRunning, [BeginJob], []),
    Move([JobQueued], Cancel, JobCancelled, [], []),
    Move([JobRunning], Cancel, JobCancelled, [RequestCancellation], [ReleaseResources]),
    Move([JobRunning], Reconcile, JobSucceeded, [VerifyArchiveOutputPair], [ReleaseResources]),
    Move([JobRunning], Fail, JobFailed, [PreserveDiagnostics, ReleaseResources], []),
    Move([JobFailed, JobCancelled], Restart, JobQueued, [], [])]

  const SOURCE_MOVES: seq<Move<SourceState>> := [
    Move([SourceNew], Start, SourceResolving, [ResolveSource], []),
    Move([SourceResolving], Redirect, SourceRedirecting, [FollowRedirect], []),
    Move([SourceRedirecting], Continue, SourceResolving, [ResolveSource], []),
    Move([SourceResolving], Complete, SourceResolved, [], []),
    Move([SourceNew, SourceResolving, SourceRedirecting], Cancel, SourceCancelled, [], []),
    Move([SourceResolving, SourceRedirecting], Fail, SourceFailed, [PreserveDiagnostics], []),
    Move([SourceFailed, SourceCancelled], Restart, SourceNew, [], [])]

  const ADMISSION_MOVES: seq<Move<AdmissionState>> := [
    Move([AdmissionWaiting], Admit, AdmissionGranted, [ReserveResources], []),
    Move([AdmissionGranted], Release, AdmissionReleased, [ReleaseResources], []),
    Move([AdmissionWaiting], Cancel, AdmissionCancelled, [], []),
    Move([AdmissionGranted], Cancel, AdmissionCancelled, [ReleaseResources], [])]

  const LIVE_MOVES: seq<Move<LiveState>> := [
    Move([LiveStarting], Ready, LiveRefreshing, [RefreshManifest], []),
    Move([LiveRefreshing], Serve, LiveStreaming, [DeliverToSink], []),
    Move([LiveStreaming], Refresh, LiveRefreshing, [RefreshManifest], []),
    Move([LiveStreaming, LiveRefreshing], Drain, LiveStopped, [DrainSink], []),
    Move([LiveStarting, LiveRefreshing, LiveStreaming], Cancel, LiveCancelled, [ReleaseResources], []),
    Move([LiveRefreshing, LiveStreaming], Fail, LiveFailed, [PreserveDiagnostics], []),
    Move([LiveFailed, LiveCancelled], Restart, LiveStarting, [], [])]

  const SINK_MOVES: seq<Move<SinkState>> := [
    Move([SinkPending], Start, SinkActive, [DeliverToSink], []),
    Move([SinkActive], Drain, SinkDraining, [DrainSink], []),
    Move([SinkDraining], Complete, SinkCompleted, [], []),
    Move([SinkActive], Reject, SinkDropped, [ReleaseResources], []),
    Move([SinkPending, SinkActive, SinkDraining], Cancel, SinkCancelled, [ReleaseResources], []),
    Move([SinkActive, SinkDraining], Fail, SinkFailed, [PreserveDiagnostics, ReleaseResources], [])]

  const JAVASCRIPT_MOVES: seq<Move<JavascriptState>> := [
    Move([JavascriptIdle], Assign, JavascriptAssigned, [DispatchWorker], []),
    Move([JavascriptAssigned], Start, JavascriptRunning, [], []),
    Move([JavascriptRunning], Complete, JavascriptCompleted, [], []),
    Move([JavascriptRunning], Recycle, JavascriptIdle, [RecycleWorker], []),
    Move([JavascriptAssigned, JavascriptRunning], Quarantine, JavascriptQuarantined,
         [IsolateWorker, PreserveDiagnostics], []),
    Move([JavascriptQuarantined], Restart, JavascriptIdle, [RecycleWorker], []),
    Move([JavascriptAssigned, JavascriptRunning], Cancel, JavascriptCancelled, [ReleaseResources], [])]

  const PLUGIN_MOVES: seq<Move<PluginState>> := [
    Move([PluginDisconnected], Start, PluginHandshaking, [OpenPluginChannel], []),
    Move([PluginHandshaking], Ready, PluginReady, [], []),
    Move([PluginReady], Assign, PluginInFlight, [SendPluginRequest], []),
    Move([PluginInFlight], Complete, PluginReady, [], []),
    Move([PluginHandshaking, PluginReady, PluginInFlight], Drain, PluginStopped, [ClosePluginChannel], []),
    Move([PluginHandshaking, PluginReady, PluginInFlight], Cancel, PluginStopped, [ClosePluginChannel], []),
    Move([PluginHandshaking, PluginReady, PluginInFlight], Fail, PluginFailed,
         [ClosePluginChannel, PreserveDiagnostics], []),
    Move([PluginFailed, PluginStopped], Restart, PluginDisconnected, [], [])]

  const WATCHER_MOVES: seq<Move<WatcherState>> := [
    Move([WatcherStarting], Ready, WatcherReady, [NegotiateWatcher, SelfTestWatcherStorage], []),
    Move([WatcherReady], Serve, WatcherServing, [VerifyProducerCanary], []),
    Move([WatcherServing], MarkStale, WatcherStale, [ReportDiagnosticsDegraded], []),
    Move([WatcherStarting, WatcherReady, WatcherServing, WatcherStale], Degrade, WatcherDegraded,
         [ReportDiagnosticsDegraded], []),
    Move([WatcherStarting, WatcherReady, WatcherServing, WatcherStale, WatcherDegraded], Drain, WatcherStopped,
         [FlushWatcher], []),
    Move([WatcherStarting, WatcherReady, WatcherServing, WatcherStale, WatcherDegraded], Cancel, WatcherStopped,
         [FlushWatcher], []),
    Move([WatcherDegraded, WatcherStale, WatcherStopped], Restart, WatcherStarting, [PreserveDiagnostics], [])]

  lemma JobMoves()
    ensures Lists(JobTable, JobQueued, JOB_MOVES)
  {
    hide WellFormed, Taken, Exhaustive, Shallow, Quiet, Ordered;
    JobTableIsWellFormed();
    JobIsShallow();
    JobMovesAreTaken();
    JobMovesAreAll();
    JobMovesAreOrdered();
  }

  lemma JobIsShallow()
    ensures Shallow(JobTable)
  {
    JobTableIsWellFormed();
    hide WellFormed;
  }

  lemma JobMovesAreTaken()
    ensures forall i :: 0 <= i < |JOB_MOVES| ==> Taken(JobTable, JOB_MOVES[i])
  {
    hide Taken;
    forall i | 0 <= i < |JOB_MOVES| ensures Taken(JobTable, JOB_MOVES[i]) {
      JobMoveIsTaken(i);
    }
  }

  lemma JobMoveIsTaken(i: nat)
    requires i < |JOB_MOVES|
    ensures Taken(JobTable, JOB_MOVES[i])
  {
    var move := JOB_MOVES[i];
    forall s | s in move.from ensures Makes(JobTable, s, move) {
    }
  }

  lemma JobMovesAreOrdered()
    ensures Ordered(JobQueued, JOB_MOVES)
  {
    var m := JOB_MOVES;
    assert m[0].to == JobRunning && m[1].to == JobCancelled;
  }

  lemma JobMovesAreAll()
    ensures Exhaustive(JobTable, JOB_MOVES)
  {
    forall s, e | Quiet(JobTable, s) && !IsOutcome(e) && JobTable(s, e).Some?
      ensures Offers(JOB_MOVES, s, e) {
      assert JobTable(s, PROBE).None?;
      var i := match e
        case Start => 0
        case Cancel => if s.JobQueued? then 1 else 2
        case Reconcile => 3
        case Fail => 4
        case _ => 5;
      assert s in JOB_MOVES[i].from && JOB_MOVES[i].request == e;
    }
  }

  lemma SourceMoves()
    ensures Lists(SourceTable, SourceNew, SOURCE_MOVES)
  {
    hide WellFormed, Taken, Exhaustive, Shallow, Quiet, Ordered;
    SourceTableIsWellFormed();
    SourceIsShallow();
    SourceMovesAreTaken();
    SourceMovesAreAll();
    SourceMovesAreOrdered();
  }

  lemma SourceIsShallow()
    ensures Shallow(SourceTable)
  {
    SourceTableIsWellFormed();
    hide WellFormed;
  }

  lemma SourceMovesAreTaken()
    ensures forall i :: 0 <= i < |SOURCE_MOVES| ==> Taken(SourceTable, SOURCE_MOVES[i])
  {
    hide Taken;
    forall i | 0 <= i < |SOURCE_MOVES| ensures Taken(SourceTable, SOURCE_MOVES[i]) {
      SourceMoveIsTaken(i);
    }
  }

  lemma SourceMoveIsTaken(i: nat)
    requires i < |SOURCE_MOVES|
    ensures Taken(SourceTable, SOURCE_MOVES[i])
  {
    var move := SOURCE_MOVES[i];
    forall s | s in move.from ensures Makes(SourceTable, s, move) {
    }
  }

  lemma SourceMovesAreOrdered()
    ensures Ordered(SourceNew, SOURCE_MOVES)
  {
    var m := SOURCE_MOVES;
    assert m[0].to == SourceResolving && m[1].to == SourceRedirecting && m[4].to == SourceCancelled;
  }

  lemma SourceMovesAreAll()
    ensures Exhaustive(SourceTable, SOURCE_MOVES)
  {
    forall s, e | Quiet(SourceTable, s) && !IsOutcome(e) && SourceTable(s, e).Some?
      ensures Offers(SOURCE_MOVES, s, e) {
      assert SourceTable(s, PROBE).None?;
      var i := match e
        case Start => 0
        case Redirect => 1
        case Continue => 2
        case Complete => 3
        case Cancel => 4
        case Fail => 5
        case _ => 6;
      assert s in SOURCE_MOVES[i].from && SOURCE_MOVES[i].request == e;
    }
  }

  lemma AdmissionMoves()
    ensures Lists(AdmissionTable, AdmissionWaiting, ADMISSION_MOVES)
  {
    hide WellFormed, Taken, Exhaustive, Shallow, Quiet, Ordered;
    AdmissionTableIsWellFormed();
    AdmissionIsShallow();
    AdmissionMovesAreTaken();
    AdmissionMovesAreAll();
    AdmissionMovesAreOrdered();
  }

  lemma AdmissionIsShallow()
    ensures Shallow(AdmissionTable)
  {
    AdmissionTableIsWellFormed();
    hide WellFormed;
  }

  lemma AdmissionMovesAreTaken()
    ensures forall i :: 0 <= i < |ADMISSION_MOVES| ==> Taken(AdmissionTable, ADMISSION_MOVES[i])
  {
    hide Taken;
    forall i | 0 <= i < |ADMISSION_MOVES| ensures Taken(AdmissionTable, ADMISSION_MOVES[i]) {
      AdmissionMoveIsTaken(i);
    }
  }

  lemma AdmissionMoveIsTaken(i: nat)
    requires i < |ADMISSION_MOVES|
    ensures Taken(AdmissionTable, ADMISSION_MOVES[i])
  {
    var move := ADMISSION_MOVES[i];
    forall s | s in move.from ensures Makes(AdmissionTable, s, move) {
    }
  }

  lemma AdmissionMovesAreOrdered()
    ensures Ordered(AdmissionWaiting, ADMISSION_MOVES)
  {
    var m := ADMISSION_MOVES;
    assert m[0].to == AdmissionGranted;
  }

  lemma AdmissionMovesAreAll()
    ensures Exhaustive(AdmissionTable, ADMISSION_MOVES)
  {
    forall s, e | Quiet(AdmissionTable, s) && !IsOutcome(e) && AdmissionTable(s, e).Some?
      ensures Offers(ADMISSION_MOVES, s, e) {
      assert AdmissionTable(s, PROBE).None?;
      var i := match e
        case Admit => 0
        case Release => 1
        case _ => if s.AdmissionWaiting? then 2 else 3;
      assert s in ADMISSION_MOVES[i].from && ADMISSION_MOVES[i].request == e;
    }
  }

  lemma LiveMoves()
    ensures Lists(LiveTable, LiveStarting, LIVE_MOVES)
  {
    hide WellFormed, Taken, Exhaustive, Shallow, Quiet, Ordered;
    LiveTableIsWellFormed();
    LiveIsShallow();
    LiveMovesAreTaken();
    LiveMovesAreAll();
    LiveMovesAreOrdered();
  }

  lemma LiveIsShallow()
    ensures Shallow(LiveTable)
  {
    LiveTableIsWellFormed();
    hide WellFormed;
  }

  lemma LiveMovesAreTaken()
    ensures forall i :: 0 <= i < |LIVE_MOVES| ==> Taken(LiveTable, LIVE_MOVES[i])
  {
    hide Taken;
    forall i | 0 <= i < |LIVE_MOVES| ensures Taken(LiveTable, LIVE_MOVES[i]) {
      LiveMoveIsTaken(i);
    }
  }

  lemma LiveMoveIsTaken(i: nat)
    requires i < |LIVE_MOVES|
    ensures Taken(LiveTable, LIVE_MOVES[i])
  {
    var move := LIVE_MOVES[i];
    forall s | s in move.from ensures Makes(LiveTable, s, move) {
    }
  }

  lemma LiveMovesAreOrdered()
    ensures Ordered(LiveStarting, LIVE_MOVES)
  {
    var m := LIVE_MOVES;
    assert m[0].to == LiveRefreshing && m[1].to == LiveStreaming && m[4].to == LiveCancelled;
  }

  lemma LiveMovesAreAll()
    ensures Exhaustive(LiveTable, LIVE_MOVES)
  {
    forall s, e | Quiet(LiveTable, s) && !IsOutcome(e) && LiveTable(s, e).Some?
      ensures Offers(LIVE_MOVES, s, e) {
      assert LiveTable(s, PROBE).None?;
      var i := match e
        case Ready => 0
        case Serve => 1
        case Refresh => 2
        case Drain => 3
        case Cancel => 4
        case Fail => 5
        case _ => 6;
      assert s in LIVE_MOVES[i].from && LIVE_MOVES[i].request == e;
    }
  }

  lemma SinkMoves()
    ensures Lists(SinkTable, SinkPending, SINK_MOVES)
  {
    hide WellFormed, Taken, Exhaustive, Shallow, Quiet, Ordered;
    SinkTableIsWellFormed();
    SinkIsShallow();
    SinkMovesAreTaken();
    SinkMovesAreAll();
    SinkMovesAreOrdered();
  }

  lemma SinkIsShallow()
    ensures Shallow(SinkTable)
  {
    SinkTableIsWellFormed();
    hide WellFormed;
  }

  lemma SinkMovesAreTaken()
    ensures forall i :: 0 <= i < |SINK_MOVES| ==> Taken(SinkTable, SINK_MOVES[i])
  {
    hide Taken;
    forall i | 0 <= i < |SINK_MOVES| ensures Taken(SinkTable, SINK_MOVES[i]) {
      SinkMoveIsTaken(i);
    }
  }

  lemma SinkMoveIsTaken(i: nat)
    requires i < |SINK_MOVES|
    ensures Taken(SinkTable, SINK_MOVES[i])
  {
    var move := SINK_MOVES[i];
    forall s | s in move.from ensures Makes(SinkTable, s, move) {
    }
  }

  lemma SinkMovesAreOrdered()
    ensures Ordered(SinkPending, SINK_MOVES)
  {
    var m := SINK_MOVES;
    assert m[0].to == SinkActive && m[1].to == SinkDraining;
  }

  lemma SinkMovesAreAll()
    ensures Exhaustive(SinkTable, SINK_MOVES)
  {
    forall s, e | Quiet(SinkTable, s) && !IsOutcome(e) && SinkTable(s, e).Some?
      ensures Offers(SINK_MOVES, s, e) {
      assert SinkTable(s, PROBE).None?;
      var i := match e
        case Start => 0
        case Drain => 1
        case Complete => 2
        case Reject => 3
        case Cancel => 4
        case _ => 5;
      assert s in SINK_MOVES[i].from && SINK_MOVES[i].request == e;
    }
  }

  lemma JavascriptMoves()
    ensures Lists(JavascriptTable, JavascriptIdle, JAVASCRIPT_MOVES)
  {
    hide WellFormed, Taken, Exhaustive, Shallow, Quiet, Ordered;
    JavascriptTableIsWellFormed();
    JavascriptIsShallow();
    JavascriptMovesAreTaken();
    JavascriptMovesAreAll();
    JavascriptMovesAreOrdered();
  }

  lemma JavascriptIsShallow()
    ensures Shallow(JavascriptTable)
  {
    JavascriptTableIsWellFormed();
    hide WellFormed;
  }

  lemma JavascriptMovesAreTaken()
    ensures forall i :: 0 <= i < |JAVASCRIPT_MOVES| ==> Taken(JavascriptTable, JAVASCRIPT_MOVES[i])
  {
    hide Taken;
    forall i | 0 <= i < |JAVASCRIPT_MOVES| ensures Taken(JavascriptTable, JAVASCRIPT_MOVES[i]) {
      JavascriptMoveIsTaken(i);
    }
  }

  lemma JavascriptMoveIsTaken(i: nat)
    requires i < |JAVASCRIPT_MOVES|
    ensures Taken(JavascriptTable, JAVASCRIPT_MOVES[i])
  {
    var move := JAVASCRIPT_MOVES[i];
    forall s | s in move.from ensures Makes(JavascriptTable, s, move) {
    }
  }

  lemma JavascriptMovesAreOrdered()
    ensures Ordered(JavascriptIdle, JAVASCRIPT_MOVES)
  {
    var m := JAVASCRIPT_MOVES;
    assert m[0].to == JavascriptAssigned && m[1].to == JavascriptRunning && m[4].to == JavascriptQuarantined;
  }

  lemma JavascriptMovesAreAll()
    ensures Exhaustive(JavascriptTable, JAVASCRIPT_MOVES)
  {
    forall s, e | Quiet(JavascriptTable, s) && !IsOutcome(e) && JavascriptTable(s, e).Some?
      ensures Offers(JAVASCRIPT_MOVES, s, e) {
      assert JavascriptTable(s, PROBE).None?;
      var i := match e
        case Assign => 0
        case Start => 1
        case Complete => 2
        case Recycle => 3
        case Quarantine => 4
        case Restart => 5
        case _ => 6;
      assert s in JAVASCRIPT_MOVES[i].from && JAVASCRIPT_MOVES[i].request == e;
    }
  }

  lemma PluginMoves()
    ensures Lists(PluginTable, PluginDisconnected, PLUGIN_MOVES)
  {
    hide WellFormed, Taken, Exhaustive, Shallow, Quiet, Ordered;
    PluginTableIsWellFormed();
    PluginIsShallow();
    PluginMovesAreTaken();
    PluginMovesAreAll();
    PluginMovesAreOrdered();
  }

  lemma PluginIsShallow()
    ensures Shallow(PluginTable)
  {
    PluginTableIsWellFormed();
    hide WellFormed;
  }

  lemma PluginMovesAreTaken()
    ensures forall i :: 0 <= i < |PLUGIN_MOVES| ==> Taken(PluginTable, PLUGIN_MOVES[i])
  {
    hide Taken;
    forall i | 0 <= i < |PLUGIN_MOVES| ensures Taken(PluginTable, PLUGIN_MOVES[i]) {
      PluginMoveIsTaken(i);
    }
  }

  lemma PluginMoveIsTaken(i: nat)
    requires i < |PLUGIN_MOVES|
    ensures Taken(PluginTable, PLUGIN_MOVES[i])
  {
    hide Taken, PluginTable;
    if i < 4 { PluginWorkIsTaken(i); } else { PluginEndIsTaken(i); }
  }

  lemma PluginWorkIsTaken(i: nat)
    requires i < 4
    ensures Taken(PluginTable, PLUGIN_MOVES[i])
  {
    var move := PLUGIN_MOVES[i];
    forall s | s in move.from ensures Makes(PluginTable, s, move) {
    }
  }

  lemma PluginEndIsTaken(i: nat)
    requires 4 <= i < |PLUGIN_MOVES|
    ensures Taken(PluginTable, PLUGIN_MOVES[i])
  {
    var move := PLUGIN_MOVES[i];
    forall s | s in move.from ensures Makes(PluginTable, s, move) {
    }
  }

  lemma PluginMovesAreOrdered()
    ensures Ordered(PluginDisconnected, PLUGIN_MOVES)
  {
    var m := PLUGIN_MOVES;
    assert m[0].to == PluginHandshaking && m[1].to == PluginReady && m[2].to == PluginInFlight;
    assert m[4].to == PluginStopped;
  }

  lemma PluginMovesAreAll()
    ensures Exhaustive(PluginTable, PLUGIN_MOVES)
  {
    forall s, e | Quiet(PluginTable, s) && !IsOutcome(e) && PluginTable(s, e).Some?
      ensures Offers(PLUGIN_MOVES, s, e) {
      assert PluginTable(s, PROBE).None?;
      var i := match e
        case Start => 0
        case Ready => 1
        case Assign => 2
        case Complete => 3
        case Drain => 4
        case Cancel => 5
        case Fail => 6
        case _ => 7;
      assert s in PLUGIN_MOVES[i].from && PLUGIN_MOVES[i].request == e;
    }
  }

  lemma WatcherMoves()
    ensures Lists(WatcherTable, WatcherStarting, WATCHER_MOVES)
  {
    hide WellFormed, Taken, Exhaustive, Shallow, Quiet, Ordered;
    WatcherTableIsWellFormed();
    WatcherIsShallow();
    WatcherMovesAreTaken();
    WatcherMovesAreAll();
    WatcherMovesAreOrdered();
  }

  lemma WatcherIsShallow()
    ensures Shallow(WatcherTable)
  {
    WatcherTableIsWellFormed();
    hide WellFormed;
  }

  lemma WatcherMovesAreTaken()
    ensures forall i :: 0 <= i < |WATCHER_MOVES| ==> Taken(WatcherTable, WATCHER_MOVES[i])
  {
    hide Taken;
    forall i | 0 <= i < |WATCHER_MOVES| ensures Taken(WatcherTable, WATCHER_MOVES[i]) {
      WatcherMoveIsTaken(i);
    }
  }

  lemma WatcherMoveIsTaken(i: nat)
    requires i < |WATCHER_MOVES|
    ensures Taken(WatcherTable, WATCHER_MOVES[i])
  {
    hide Taken, WatcherTable;
    if i < 4 { WatcherUpkeepIsTaken(i); } else { WatcherEndIsTaken(i); }
  }

  lemma WatcherUpkeepIsTaken(i: nat)
    requires i < 4
    ensures Taken(WatcherTable, WATCHER_MOVES[i])
  {
    var move := WATCHER_MOVES[i];
    forall s | s in move.from ensures Makes(WatcherTable, s, move) {
    }
  }

  lemma WatcherEndIsTaken(i: nat)
    requires 4 <= i < |WATCHER_MOVES|
    ensures Taken(WatcherTable, WATCHER_MOVES[i])
  {
    var move := WATCHER_MOVES[i];
    forall s | s in move.from ensures Makes(WatcherTable, s, move) {
    }
  }

  lemma WatcherMovesAreOrdered()
    ensures Ordered(WatcherStarting, WATCHER_MOVES)
  {
    var m := WATCHER_MOVES;
    assert m[0].to == WatcherReady && m[1].to == WatcherServing && m[2].to == WatcherStale;
  }

  lemma WatcherMovesAreAll()
    ensures Exhaustive(WatcherTable, WATCHER_MOVES)
  {
    forall s, e | Quiet(WatcherTable, s) && !IsOutcome(e) && WatcherTable(s, e).Some?
      ensures Offers(WATCHER_MOVES, s, e) {
      assert WatcherTable(s, PROBE).None?;
      var i := match e
        case Ready => 0
        case Serve => 1
        case MarkStale => 2
        case Degrade => 3
        case Drain => 4
        case Cancel => 5
        case _ => 6;
      assert s in WATCHER_MOVES[i].from && WATCHER_MOVES[i].request == e;
    }
  }

  /** Each of the eight kinds does exactly what its list of moves says. */
  lemma EveryKindMovesAsListed()
    ensures Behaves(JobTable, JobQueued, JOB_MOVES)
    ensures Behaves(SourceTable, SourceNew, SOURCE_MOVES)
    ensures Behaves(AdmissionTable, AdmissionWaiting, ADMISSION_MOVES)
    ensures Behaves(LiveTable, LiveStarting, LIVE_MOVES)
    ensures Behaves(SinkTable, SinkPending, SINK_MOVES)
    ensures Behaves(JavascriptTable, JavascriptIdle, JAVASCRIPT_MOVES)
    ensures Behaves(PluginTable, PluginDisconnected, PLUGIN_MOVES)
    ensures Behaves(WatcherTable, WatcherStarting, WATCHER_MOVES)
  {
    hide Lists, Behaves;
    JobMoves();
    ListsBehave(JobTable, JobQueued, JOB_MOVES);
    SourceMoves();
    ListsBehave(SourceTable, SourceNew, SOURCE_MOVES);
    AdmissionMoves();
    ListsBehave(AdmissionTable, AdmissionWaiting, ADMISSION_MOVES);
    LiveMoves();
    ListsBehave(LiveTable, LiveStarting, LIVE_MOVES);
    SinkMoves();
    ListsBehave(SinkTable, SinkPending, SINK_MOVES);
    JavascriptMoves();
    ListsBehave(JavascriptTable, JavascriptIdle, JAVASCRIPT_MOVES);
    PluginMoves();
    ListsBehave(PluginTable, PluginDisconnected, PLUGIN_MOVES);
    WatcherMoves();
    ListsBehave(WatcherTable, WatcherStarting, WATCHER_MOVES);
  }
}
