/**
 The other lifecycles driven by the correlated-effect engine: jobs, sources, admissions,
 live streams, sinks, script workers, plug-ins and watchers. Each table is shown to have
 the shape the engine relies on, so that its guarantees hold for every run of every kind.
 */
module WrapperLifecycles {
  import opened Wrappers
  import opened StateMachines

  function To<S>(next: S, effects: seq<EffectIntent>): Option<(S, seq<EffectIntent>)> {
    Some((next, effects))
  }

  // ---------------------------------------------------------------------------
  // Jobs

  datatype JobState =
    | JobQueued | JobRunning | JobCancelling | JobVerifying | JobSucceeded | JobFailed | JobCancelled

  function JobAfterAcknowledgement(state: JobState): Option<(JobState, seq<EffectIntent>)> {
    match state
    case JobCancelling => To(JobCancelled, [ReleaseResources])
    case JobVerifying => To(JobSucceeded, [ReleaseResources])
    case _ => None
  }

  function JobTable(state: JobState, event: Event): Option<(JobState, seq<EffectIntent>)> {
    match event
    case Start => if state.JobQueued? then To(JobRunning, [BeginJob]) else None
    case Cancel =>
      if state.JobQueued? then To(JobCancelled, [])
      else if state.JobRunning? || state.JobVerifying? then To(JobCancelling, [RequestCancellation])
      else None
    case Reconcile => if state.JobRunning? then To(JobVerifying, [VerifyArchiveOutputPair]) else None
    case Fail =>
      if state.JobRunning? || state.JobCancelling? || state.JobVerifying?
      then To(JobFailed, [PreserveDiagnostics, ReleaseResources]) else None
    case Restart => if state.JobFailed? || state.JobCancelled? then To(JobQueued, []) else None
    case EffectAcknowledged(_) => JobAfterAcknowledgement(state)
    case _ => None
  }

  lemma JobTableIsWellFormed()
    ensures WellFormed(JobTable) && Quiet(JobTable, JobQueued)
  {
  }

  // ---------------------------------------------------------------------------
  // Sources

  datatype SourceState =
    | SourceNew | SourceResolving | SourceRedirecting | SourceResolved | SourceFailed | SourceCancelled

  function SourceTable(state: SourceState, event: Event): Option<(SourceState, seq<EffectIntent>)> {
    match event
    case Start => if state.SourceNew? then To(SourceResolving, [ResolveSource]) else None
    case Continue => if state.SourceRedirecting? then To(SourceResolving, [ResolveSource]) else None
    case Redirect => if state.SourceResolving? then To(SourceRedirecting, [FollowRedirect]) else None
    case Complete => if state.SourceResolving? then To(SourceResolved, []) else None
    case Cancel =>
      if state.SourceNew? || state.SourceResolving? || state.SourceRedirecting? then To(SourceCancelled, []) else None
    case Fail =>
      if state.SourceResolving? || state.SourceRedirecting? then To(SourceFailed, [PreserveDiagnostics]) else None
    case Restart => if state.SourceFailed? || state.SourceCancelled? then To(SourceNew, []) else None
    case _ => None
  }

  lemma SourceTableIsWellFormed()
    ensures WellFormed(SourceTable) && Quiet(SourceTable, SourceNew)
  {
  }

  // ---------------------------------------------------------------------------
  // Admissions

  datatype AdmissionState =
    | AdmissionWaiting | AdmissionGranted | AdmissionReleased | AdmissionCancelled

  function AdmissionTable(state: AdmissionState, event: Event): Option<(AdmissionState, seq<EffectIntent>)> {
    match event
    case Admit => if state.AdmissionWaiting? then To(AdmissionGranted, [ReserveResources]) else None
    case Release => if state.AdmissionGranted? then To(AdmissionReleased, [ReleaseResources]) else None
    case Cancel =>
      if state.AdmissionWaiting? then To(AdmissionCancelled, [])
      else if state.AdmissionGranted? then To(AdmissionCancelled, [ReleaseResources])
      else None
    case _ => None
  }

  lemma AdmissionTableIsWellFormed()
    ensures WellFormed(AdmissionTable) && Quiet(AdmissionTable, AdmissionWaiting)
  {
  }

  // ---------------------------------------------------------------------------
  // Live streams

  datatype LiveState =
    | LiveStarting | LiveRefreshing | LiveStreaming | LiveStopped | LiveFailed | LiveCancelled

  function LiveTable(state: LiveState, event: Event): Option<(LiveState, seq<EffectIntent>)> {
    match event
    case Ready => if state.LiveStarting? then To(LiveRefreshing, [RefreshManifest]) else None
    case Refresh => if state.LiveStreaming? then To(LiveRefreshing, [RefreshManifest]) else None
    case Serve => if state.LiveRefreshing? then To(LiveStreaming, [DeliverToSink]) else None
    case Drain => if state.LiveStreaming? || state.LiveRefreshing? then To(LiveStopped, [DrainSink]) else None
    case Cancel =>
      if state.LiveStarting? || state.LiveRefreshing? || state.LiveStreaming?
      then To(LiveCancelled, [ReleaseResources]) else None
    case Fail => if state.LiveRefreshing? || state.LiveStreaming? then To(LiveFailed, [PreserveDiagnostics]) else None
    case Restart => if state.LiveFailed? || state.LiveCancelled? then To(LiveStarting, []) else None
    case _ => None
  }

  lemma LiveTableIsWellFormed()
    ensures WellFormed(LiveTable) && Quiet(LiveTable, LiveStarting)
  {
  }

  // ---------------------------------------------------------------------------
  // Sinks

  datatype SinkState =
    | SinkPending | SinkActive | SinkDraining | SinkCompleted | SinkDropped | SinkFailed | SinkCancelled

  function SinkTable(state: SinkState, event: Event): Option<(SinkState, seq<EffectIntent>)> {
    match event
    case Start => if state.SinkPending? then To(SinkActive, [DeliverToSink]) else None
    case Drain => if state.SinkActive? then To(SinkDraining, [DrainSink]) else None
    case Complete => if state.SinkDraining? then To(SinkCompleted, []) else None
    case Reject => if state.SinkActive? then To(SinkDropped, [ReleaseResources]) else None
    case Cancel =>
      if state.SinkPending? || state.SinkActive? || state.SinkDraining? then To(SinkCancelled, [ReleaseResources])
      else None
    case Fail =>
      if state.SinkActive? || state.SinkDraining? then To(SinkFailed, [PreserveDiagnostics, ReleaseResources]) else None
    case _ => None
  }

  lemma SinkTableIsWellFormed()
    ensures WellFormed(SinkTable) && Quiet(SinkTable, SinkPending)
  {
  }

  // ---------------------------------------------------------------------------
  // Script workers

  datatype JavascriptState =
    | JavascriptIdle | JavascriptAssigned | JavascriptRunning | JavascriptRecycling | JavascriptQuarantined
    | JavascriptCompleted | JavascriptCancelled

  function JavascriptTable(state: JavascriptState, event: Event): Option<(JavascriptState, seq<EffectIntent>)> {
    match event
    case Assign => if state.JavascriptIdle? then To(JavascriptAssigned, [DispatchWorker]) else None
    case Start => if state.JavascriptAssigned? then To(JavascriptRunning, []) else None
    case Complete => if state.JavascriptRunning? then To(JavascriptCompleted, []) else None
    case Recycle => if state.JavascriptRunning? then To(JavascriptRecycling, [RecycleWorker]) else None
    case Quarantine =>
      if state.JavascriptAssigned? || state.JavascriptRunning?
      then To(JavascriptQuarantined, [IsolateWorker, PreserveDiagnostics]) else None
    case Restart => if state.JavascriptQuarantined? then To(JavascriptIdle, [RecycleWorker]) else None
    case Cancel =>
      if state.JavascriptAssigned? || state.JavascriptRunning? then To(JavascriptCancelled, [ReleaseResources])
      else None
    case EffectAcknowledged(_) => if state.JavascriptRecycling? then To(JavascriptIdle, []) else None
    case _ => None
  }

  lemma JavascriptTableIsWellFormed()
    ensures WellFormed(JavascriptTable) && Quiet(JavascriptTable, JavascriptIdle)
  {
  }

  // ---------------------------------------------------------------------------
  // Plug-ins

  datatype PluginState =
    | PluginDisconnected | PluginHandshaking | PluginReady | PluginInFlight | PluginDraining | PluginStopped
    | PluginFailed

  predicate PluginConnected(state: PluginState) {
    state.PluginHandshaking? || state.PluginReady? || state.PluginInFlight?
  }

  function PluginTable(state: PluginState, event: Event): Option<(PluginState, seq<EffectIntent>)> {
    match event
    case Start => if state.PluginDisconnected? then To(PluginHandshaking, [OpenPluginChannel]) else None
    case Ready => if state.PluginHandshaking? then To(PluginReady, []) else None
    case Complete => if state.PluginInFlight? then To(PluginReady, []) else None
    case Assign => if state.PluginReady? then To(PluginInFlight, [SendPluginRequest]) else None
    case Drain => if PluginConnected(state) then To(PluginDraining, [ClosePluginChannel]) else None
    case Cancel => if PluginConnected(state) then To(PluginDraining, [ClosePluginChannel]) else None
    case Fail =>
      if PluginConnected(state) || state.PluginDraining?
      then To(PluginFailed, [ClosePluginChannel, PreserveDiagnostics])
      else None
    case Restart => if state.PluginFailed? || state.PluginStopped? then To(PluginDisconnected, []) else None
    case EffectAcknowledged(_) => if state.PluginDraining? then To(PluginStopped, []) else None
    case _ => None
  }

  lemma PluginTableIsWellFormed()
    ensures WellFormed(PluginTable) && Quiet(PluginTable, PluginDisconnected)
  {
  }

  // ---------------------------------------------------------------------------
  // Watchers

  datatype WatcherState =
    | WatcherStarting | WatcherReady | WatcherServing | WatcherDegraded | WatcherStale | WatcherDraining
    | WatcherStopped

  predicate Watching(state: WatcherState) {
    state.WatcherStarting? || state.WatcherReady? || state.WatcherServing? || state.WatcherStale?
  }

  function WatcherTable(state: WatcherState, event: Event): Option<(WatcherState, seq<EffectIntent>)> {
    match event
    case Ready =>
      if state.WatcherStarting? then To(WatcherReady, [NegotiateWatcher, SelfTestWatcherStorage]) else None
    case Serve => if state.WatcherReady? then To(WatcherServing, [VerifyProducerCanary]) else None
    case Degrade => if Watching(state) then To(WatcherDegraded, [ReportDiagnosticsDegraded]) else None
    case MarkStale => if state.WatcherServing? then To(WatcherStale, [ReportDiagnosticsDegraded]) else None
    case Drain => if Watching(state) || state.WatcherDegraded? then To(WatcherDraining, [FlushWatcher]) else None
    case Cancel => if Watching(state) || state.WatcherDegraded? then To(WatcherDraining, [FlushWatcher]) else None
    case Restart =>
      if state.WatcherDegraded? || state.WatcherStale? || state.WatcherStopped?
      then To(WatcherStarting, [PreserveDiagnostics]) else None
    case EffectAcknowledged(_) => if state.WatcherDraining? then To(WatcherStopped, []) else None
    case _ => None
  }

  lemma WatcherTableIsWellFormed()
    ensures WellFormed(WatcherTable) && Quiet(WatcherTable, WatcherStarting)
  {
  }

  // ---------------------------------------------------------------------------
  // All of them

  /** Every run of every one of the eight lifecycles is correlated and replayable. */
  lemma EveryKindIsCorrelatedAndReplayable()
    ensures CorrelatedAndReplayable(JobTable, JobQueued)
    ensures CorrelatedAndReplayable(SourceTable, SourceNew)
    ensures CorrelatedAndReplayable(AdmissionTable, AdmissionWaiting)
    ensures CorrelatedAndReplayable(LiveTable, LiveStarting)
    ensures CorrelatedAndReplayable(SinkTable, SinkPending)
    ensures CorrelatedAndReplayable(JavascriptTable, JavascriptIdle)
    ensures CorrelatedAndReplayable(PluginTable, PluginDisconnected)
    ensures CorrelatedAndReplayable(WatcherTable, WatcherStarting)
  {
    hide WellFormed, Quiet, CorrelatedAndReplayable;
    JobTableIsWellFormed();
    WellFormedKeepsPromise(JobTable, JobQueued);
    SourceTableIsWellFormed();
    WellFormedKeepsPromise(SourceTable, SourceNew);
    AdmissionTableIsWellFormed();
    WellFormedKeepsPromise(AdmissionTable, AdmissionWaiting);
    LiveTableIsWellFormed();
    WellFormedKeepsPromise(LiveTable, LiveStarting);
    SinkTableIsWellFormed();
    WellFormedKeepsPromise(SinkTable, SinkPending);
    JavascriptTableIsWellFormed();
    WellFormedKeepsPromise(JavascriptTable, JavascriptIdle);
    PluginTableIsWellFormed();
    WellFormedKeepsPromise(PluginTable, PluginDisconnected);
    WatcherTableIsWellFormed();
    WellFormedKeepsPromise(WatcherTable, WatcherStarting);
  }
}
