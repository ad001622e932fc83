/**
 The owned boundary around the ledger: grants dispatched to waiters wait in `ready`
 until their handle collects them, and every lease or waiter handle is given up once.

 Reference counting is replaced by the sets of handles that are still live.
 */
module ResourceBrokers {
  import opened Wrappers
  import opened ResourceVectors
  import opened ResourceLedgers
  import opened ResourceHistories

  datatype Broker = Broker(ledger: Ledger, ready: map<nat, Grant>)

  /** Every dispatched grant names its own waiter, none of them already ready. */
  predicate Recordable(ready: map<nat, Grant>, issued: seq<Grant>) {
    && (forall i :: 0 <= i < |issued| ==> issued[i].sourceWaiter.Some? && issued[i].sourceWaiter.value !in ready)
    && (forall i, j :: 0 <= i < j < |issued| ==> issued[i].sourceWaiter != issued[j].sourceWaiter)
  }

  function Recorded(ready: map<nat, Grant>, issued: seq<Grant>): map<nat, Grant>
    requires forall i :: 0 <= i < |issued| ==> issued[i].sourceWaiter.Some?
  {
    if issued == [] then ready
    else
      var last := issued[|issued| - 1];
      Recorded(ready, issued[..|issued| - 1])[last.sourceWaiter.value := last]
  }

  function Finish(before: Broker, ready: map<nat, Grant>, outcome: (Result<seq<Grant>, LedgerError>, Ledger))
    : (Result<seq<nat>, LedgerError>, Broker)
  {
    match outcome.0
    case Err(error) => (Err(error), before)
    case Ok(issued) =>
      if Recordable(ready, issued) then (Ok(Served(issued)), Broker(outcome.1, Recorded(ready, issued)))
      else (Err(InvariantViolation), before)
  }

  function ReleaseGrant(b: Broker, grantId: nat, owner: nat): (Result<seq<nat>, LedgerError>, Broker) {
    Finish(b, b.ready, Release(b.ledger, grantId, owner))
  }

  function CancelHandle(b: Broker, waiterId: nat): (Result<seq<nat>, LedgerError>, Broker) {
    if waiterId in b.ready then
      Finish(b, b.ready - {waiterId}, Release(b.ledger, b.ready[waiterId].id, b.ready[waiterId].owner))
    else Finish(b, b.ready, CancelWaiter(b.ledger, waiterId))
  }

  // ---------------------------------------------------------------------------
  // Handles

  /** A broker together with the handles that are still live. */
  datatype World = World(broker: Broker, leases: map<nat, Grant>, waiters: set<nat>)

  datatype HandleOp =
    | Demand(owner: nat, resources: ResourceVector)
    | GiveUpLease(grantId: nat)
    | TryAcquire(waiterId: nat)
    | GiveUpWaiter(waiterId: nat)

  function AskStep(h: World, owner: nat, resources: ResourceVector): World {
    var (r, ledger) := Request(h.broker.ledger, owner, resources);
    var broker := h.broker.(ledger := ledger);
    match r
    case Ok(Granted(grant)) => h.(broker := broker, leases := h.leases[grant.id := grant])
    case Ok(Queued(id)) => h.(broker := broker, waiters := h.waiters + {id})
    case Err(_) => h.(broker := broker)
  }

  /** Explicit release and drop end alike: the handle is gone whether or not the ledger accepted. */
  function GiveUpLeaseStep(h: World, grantId: nat): World {
    if grantId !in h.leases then h
    else
      World(ReleaseGrant(h.broker, grantId, h.leases[grantId].owner).1, h.leases - {grantId}, h.waiters)
  }

  function TryAcquireStep(h: World, waiterId: nat): World {
    if waiterId !in h.waiters || waiterId !in h.broker.ready then h
    else
      var grant := h.broker.ready[waiterId];
      World(h.broker.(ready := h.broker.ready - {waiterId}), h.leases[grant.id := grant], h.waiters - {waiterId})
  }

  /** Cancelling reaches the broker even through a handle that was already resolved. */
  function GiveUpWaiterStep(h: World, waiterId: nat): World {
    World(CancelHandle(h.broker, waiterId).1, h.leases, h.waiters - {waiterId})
  }

  function Step(h: World, op: HandleOp): World {
    match op
    case Demand(owner, resources) => AskStep(h, owner, resources)
    case GiveUpLease(id) => GiveUpLeaseStep(h, id)
    case TryAcquire(id) => TryAcquireStep(h, id)
    case GiveUpWaiter(id) => GiveUpWaiterStep(h, id)
  }

  // ---------------------------------------------------------------------------
  // What the handle operations report

  function ErrorOf<T>(r: Result<T, LedgerError>): Option<LedgerError> {
    if r.Err? then Some(r.error) else None
  }

  /** The error an operation reports, if any. A lease that is not live cannot be used at all. */
  function Reported(h: World, op: HandleOp): Option<LedgerError> {
    match op
    case Demand(owner, resources) => ErrorOf(Request(h.broker.ledger, owner, resources).0)
    case GiveUpLease(id) =>
      if id in h.leases then ErrorOf(ReleaseGrant(h.broker, id, h.leases[id].owner).0) else None
    case TryAcquire(w) => if w in h.waiters then None else Some(WaiterAlreadyResolved(w))
    case GiveUpWaiter(w) => ErrorOf(CancelHandle(h.broker, w).0)
  }

  /** The operation gives up a handle that is live. */
  predicate GivesUp(h: World, op: HandleOp) {
    (op.GiveUpLease? && op.grantId in h.leases) || (op.GiveUpWaiter? && op.waiterId in h.waiters)
  }

  // ---------------------------------------------------------------------------
  // Accounting

  /** Ready entries are active grants filed under their own waiter, all earlier than the queue. */
  ghost predicate ReadyOk(active: map<nat, Grant>, queue: seq<Waiter>, nextWaiter: nat, ready: map<nat, Grant>) {
    && (forall w :: w in ready ==> ready[w].sourceWaiter == Some(w) && w < nextWaiter)
    && (forall w :: w in ready ==> ready[w].id in active && active[ready[w].id] == ready[w])
    && (forall w, k :: w in ready && 0 <= k < |queue| ==> w < queue[k].id)
  }

  /** Active grants are the disjoint union of live leases and ready grants. */
  ghost predicate GrantsAccounted(active: map<nat, Grant>, leases: map<nat, Grant>, ready: map<nat, Grant>) {
    && (forall id :: id in leases ==> id in active && active[id] == leases[id])
    && (forall w :: w in ready ==> ready[w].id !in leases)
    && (forall id :: id in active && id !in leases ==> IsReady(ready, id))
  }

  ghost predicate IsReady(ready: map<nat, Grant>, id: nat) {
    exists w :: w in ready && ready[w].id == id
  }

  /** Live waiter handles are the disjoint union of queued and ready identities. */
  ghost predicate WaitersAccounted(queue: seq<Waiter>, ready: map<nat, Grant>, handles: set<nat>) {
    forall w :: w in handles <==> Queues(queue, w) || w in ready
  }

  ghost predicate Accounting(h: World) {
    var l := h.broker.ledger;
    && Inv(l)
    && ReadyOk(l.active, l.waiters, l.nextWaiter, h.broker.ready)
    && GrantsAccounted(l.active, h.leases, h.broker.ready)
    && WaitersAccounted(l.waiters, h.broker.ready, h.waiters)
  }

  /** Giving up this handle leaves enough grant numbers for the waiters it unblocks. */
  predicate IdsSuffice(h: World, op: HandleOp) {
    var l := h.broker.ledger;
    match op
    case Demand(_, _) => true
    case TryAcquire(_) => true
    case GiveUpLease(id) =>
      id in h.leases && id in l.active && CheckedSub(l.inUse, l.active[id].resources).Some? ==>
        l.nextGrant + AdmissibleRun(Freed(l, id)) <= U64_MAX
    case GiveUpWaiter(w) =>
      if w in h.broker.ready then
        var id := h.broker.ready[w].id;
        id in l.active && CheckedSub(l.inUse, l.active[id].resources).Some? ==>
          l.nextGrant + AdmissibleRun(Freed(l, id)) <= U64_MAX
      else
        Queues(l.waiters, w) && l.waiters[Position(l.waiters, w)].variableBytes <= l.waiterBytes ==>
          l.nextGrant + AdmissibleRun(Withdrawn(l, Position(l.waiters, w))) <= U64_MAX
  }

  /** Where an entry of the updated `ready` comes from: an earlier entry (-1) or the grant at `i`. */
  lemma {:induction false} RecordedOrigin(ready: map<nat, Grant>, issued: seq<Grant>, w: nat) returns (i: int)
    requires forall i :: 0 <= i < |issued| ==> issued[i].sourceWaiter.Some?
    requires w in Recorded(ready, issued)
    ensures -1 <= i < |issued|
    ensures i == -1 ==> w in ready && Recorded(ready, issued)[w] == ready[w]
    ensures i >= 0 ==> issued[i].sourceWaiter == Some(w) && Recorded(ready, issued)[w] == issued[i]
  {
    if issued == [] {
      i := -1;
    } else {
      var n := |issued| - 1;
      if issued[n].sourceWaiter.value == w {
        i := n;
      } else {
        i := RecordedOrigin(ready, issued[..n], w);
      }
    }
  }

  /** Nothing already ready or newly issued is lost. */
  lemma {:induction false} RecordedKeeps(ready: map<nat, Grant>, issued: seq<Grant>)
    requires Recordable(ready, issued)
    ensures forall w :: w in ready ==> w in Recorded(ready, issued) && Recorded(ready, issued)[w] == ready[w]
    ensures forall i :: 0 <= i < |issued| ==>
              issued[i].sourceWaiter.value in Recorded(ready, issued)
              && Recorded(ready, issued)[issued[i].sourceWaiter.value] == issued[i]
  {
    if issued != [] {
      var n := |issued| - 1;
      RecordedKeeps(ready, issued[..n]);
      forall i | 0 <= i < n
        ensures issued[i].sourceWaiter.value in Recorded(ready, issued[..n])
        ensures Recorded(ready, issued[..n])[issued[i].sourceWaiter.value] == issued[i]
      {
        assert issued[..n][i] == issued[i];
      }
    }
  }

  // ---------------------------------------------------------------------------
  // Dispatching moves the admitted waiters from the queue to `ready`

  /** A drain of `l` handed over `issued` and left `l'`; `ready` was consistent with `l`. */
  ghost predicate Dispatches(l: Ledger, ready: map<nat, Grant>, issued: seq<Grant>, l': Ledger) {
    && Increasing(l.waiters)
    && (forall i :: 0 <= i < |l.waiters| ==> l.waiters[i].id < l.nextWaiter)
    && ReadyOk(l.active, l.waiters, l.nextWaiter, ready)
    && AdmittedPrefix(l, issued, l')
    && (forall id :: id in l.active ==> id < l.nextGrant)
  }

  lemma DispatchRecordable(l: Ledger, ready: map<nat, Grant>, issued: seq<Grant>, l': Ledger)
    requires Dispatches(l, ready, issued, l')
    ensures Recordable(ready, issued)
    ensures forall i :: 0 <= i < |issued| ==> issued[i].sourceWaiter == Some(l.waiters[i].id)
  {
  }

  lemma DispatchReadyEntry(l: Ledger, ready: map<nat, Grant>, issued: seq<Grant>, l': Ledger, w: nat)
    requires Dispatches(l, ready, issued, l') && Recordable(ready, issued)
    requires w in Recorded(ready, issued)
    ensures var g := Recorded(ready, issued)[w];
            && g.sourceWaiter == Some(w) && w < l'.nextWaiter
            && g.id in l'.active && l'.active[g.id] == g
            && (forall j :: 0 <= j < |l'.waiters| ==> w < l'.waiters[j].id)
            && ((w in ready && g == ready[w]) || (l.nextGrant <= g.id && Queues(l.waiters, w)))
  {
    var i := RecordedOrigin(ready, issued, w);
    if i >= 0 {
      assert l'.active[l.nextGrant + i] == issued[i];
      assert l.waiters[i].id == w;
    }
  }

  lemma DispatchKeepsReady(l: Ledger, ready: map<nat, Grant>, issued: seq<Grant>, l': Ledger)
    requires Dispatches(l, ready, issued, l') && Recordable(ready, issued)
    ensures ReadyOk(l'.active, l'.waiters, l'.nextWaiter, Recorded(ready, issued))
  {
    hide Dispatches, Recorded;
    forall w | w in Recorded(ready, issued)
      ensures var g := Recorded(ready, issued)[w];
              && g.sourceWaiter == Some(w) && w < l'.nextWaiter
              && g.id in l'.active && l'.active[g.id] == g
              && (forall j :: 0 <= j < |l'.waiters| ==> w < l'.waiters[j].id)
    {
      DispatchReadyEntry(l, ready, issued, l', w);
    }
  }

  lemma DispatchKeepsWaiters(l: Ledger, ready: map<nat, Grant>, issued: seq<Grant>, l': Ledger, handles: set<nat>)
    requires Dispatches(l, ready, issued, l') && Recordable(ready, issued)
    requires WaitersAccounted(l.waiters, ready, handles)
    ensures WaitersAccounted(l'.waiters, Recorded(ready, issued), handles)
  {
    hide Dispatches, Recorded, Queues;
    forall w ensures w in handles <==> Queues(l'.waiters, w) || w in Recorded(ready, issued) {
      if w in Recorded(ready, issued) {
        DispatchReadyEntry(l, ready, issued, l', w);
      }
      QueueAfterDispatch(l, ready, issued, l', w);
    }
  }

  lemma QueueAfterDispatch(l: Ledger, ready: map<nat, Grant>, issued: seq<Grant>, l': Ledger, w: nat)
    requires Dispatches(l, ready, issued, l') && Recordable(ready, issued)
    ensures Queues(l'.waiters, w) ==> Queues(l.waiters, w)
    ensures Queues(l.waiters, w) ==> Queues(l'.waiters, w) || w in Recorded(ready, issued)
    ensures w in ready ==> w in Recorded(ready, issued)
  {
    RecordedKeeps(ready, issued);
    var k := |issued|;
    hide ReadyOk, Increasing, Extends;
    if Queues(l'.waiters, w) {
      var j :| 0 <= j < |l'.waiters| && l'.waiters[j].id == w;
      assert l.waiters[j + k].id == w;
    }
    if Queues(l.waiters, w) {
      var i :| 0 <= i < |l.waiters| && l.waiters[i].id == w;
      if i >= k {
        assert l'.waiters[i - k].id == w;
      } else {
        assert issued[i].sourceWaiter.value == w;
      }
    }
  }

  lemma DispatchKeepsGrants(l: Ledger, ready: map<nat, Grant>, issued: seq<Grant>, l': Ledger, leases: map<nat, Grant>)
    requires Dispatches(l, ready, issued, l') && Recordable(ready, issued)
    requires GrantsAccounted(l.active, leases, ready)
    ensures GrantsAccounted(l'.active, leases, Recorded(ready, issued))
  {
    var ready' := Recorded(ready, issued);
    hide Recorded, ReadyOk, IssuedInOrder, IsReady;
    forall id | id in l'.active && id !in leases ensures IsReady(ready', id) {
      DispatchCoversGrant(l, ready, issued, l', id);
    }
    forall w | w in ready' ensures ready'[w].id !in leases {
      DispatchReadyEntry(l, ready, issued, l', w);
    }
  }

  lemma DispatchCoversGrant(l: Ledger, ready: map<nat, Grant>, issued: seq<Grant>, l': Ledger, id: nat)
    requires Dispatches(l, ready, issued, l') && Recordable(ready, issued)
    requires IsReady(ready, id) || l.nextGrant <= id < l'.nextGrant
    ensures IsReady(Recorded(ready, issued), id)
  {
    RecordedKeeps(ready, issued);
    var ready' := Recorded(ready, issued);
    if IsReady(ready, id) {
      var w :| w in ready && ready[w].id == id;
      assert w in ready' && ready'[w].id == id;
    } else {
      var i := id - l.nextGrant;
      assert ready'[issued[i].sourceWaiter.value].id == id;
    }
  }

  /** The world after a dispatch from a ledger `l` in which the given-up handle no longer counts. */
  lemma DispatchKeepsAccounting(
      l: Ledger, ready: map<nat, Grant>, issued: seq<Grant>, l': Ledger, leases: map<nat, Grant>, handles: set<nat>)
    requires Dispatches(l, ready, issued, l') && Inv(l')
    requires GrantsAccounted(l.active, leases, ready) && WaitersAccounted(l.waiters, ready, handles)
    ensures Recordable(ready, issued)
    ensures Accounting(World(Broker(l', Recorded(ready, issued)), leases, handles))
  {
    DispatchRecordable(l, ready, issued, l');
    hide Inv, Recorded, Dispatches, ReadyOk, GrantsAccounted, WaitersAccounted;
    DispatchKeepsReady(l, ready, issued, l');
    DispatchKeepsGrants(l, ready, issued, l', leases);
    DispatchKeepsWaiters(l, ready, issued, l', handles);
  }

  // ---------------------------------------------------------------------------
  // Asking and collecting

  lemma AskShape(l: Ledger, owner: nat, resources: ResourceVector)
    requires Inv(l)
    ensures var (r, l') := Request(l, owner, resources);
            match r
            case Err(_) => l' == l
            case Ok(Granted(g)) =>
              && g.id == l.nextGrant && g.id !in l.active && l'.active == l.active[g.id := g]
              && l'.waiters == l.waiters && l'.nextWaiter == l.nextWaiter
            case Ok(Queued(id)) =>
              && id == l.nextWaiter && l'.nextWaiter == id + 1 && l'.active == l.active
              && |l'.waiters| == |l.waiters| + 1 && l'.waiters[..|l.waiters|] == l.waiters
              && l'.waiters[|l.waiters|].id == id
  {
  }

  lemma GrantedKeeps(active: map<nat, Grant>, queue: seq<Waiter>, nextWaiter: nat, ready: map<nat, Grant>,
                     leases: map<nat, Grant>, id: nat, g: Grant)
    requires id !in active
    requires ReadyOk(active, queue, nextWaiter, ready) && GrantsAccounted(active, leases, ready)
    ensures ReadyOk(active[id := g], queue, nextWaiter, ready)
    ensures GrantsAccounted(active[id := g], leases[id := g], ready)
  {
  }

  lemma QueuedKeeps(active: map<nat, Grant>, queue: seq<Waiter>, nextWaiter: nat, ready: map<nat, Grant>,
                    handles: set<nat>, more: seq<Waiter>)
    requires |more| == |queue| + 1 && more[..|queue|] == queue && more[|queue|].id == nextWaiter
    requires ReadyOk(active, queue, nextWaiter, ready) && WaitersAccounted(queue, ready, handles)
    ensures ReadyOk(active, more, nextWaiter + 1, ready)
    ensures WaitersAccounted(more, ready, handles + {nextWaiter})
  {
    forall k | 0 <= k < |queue| ensures more[k] == queue[k] {}
    forall w ensures Queues(more, w) <==> Queues(queue, w) || w == nextWaiter {
      if Queues(queue, w) {
        var i :| 0 <= i < |queue| && queue[i].id == w;
        assert more[i].id == w;
      }
      if Queues(more, w) && w != nextWaiter {
        var i :| 0 <= i < |more| && more[i].id == w;
        assert queue[i].id == w;
      }
    }
  }

  lemma AskKeepsAccounting(h: World, owner: nat, resources: ResourceVector)
    requires Accounting(h)
    ensures Accounting(AskStep(h, owner, resources))
  {
    var l := h.broker.ledger;
    RequestKeeps(l, owner, resources);
    AskShape(l, owner, resources);
    var (r, l') := Request(l, owner, resources);
    hide Inv, Request, ReadyOk, GrantsAccounted, WaitersAccounted;
    match r
    case Err(_) =>
    case Ok(Granted(g)) => GrantedKeeps(l.active, l.waiters, l.nextWaiter, h.broker.ready, h.leases, g.id, g);
    case Ok(Queued(id)) => QueuedKeeps(l.active, l.waiters, l.nextWaiter, h.broker.ready, h.waiters, l'.waiters);
  }

  lemma AcquireKeepsGrants(active: map<nat, Grant>, queue: seq<Waiter>, nextWaiter: nat, ready: map<nat, Grant>,
                           leases: map<nat, Grant>, w: nat)
    requires w in ready
    requires ReadyOk(active, queue, nextWaiter, ready) && GrantsAccounted(active, leases, ready)
    ensures ReadyOk(active, queue, nextWaiter, ready - {w})
    ensures GrantsAccounted(active, leases[ready[w].id := ready[w]], ready - {w})
  {
    forall id | id in active && id !in leases && id != ready[w].id ensures IsReady(ready - {w}, id) {
      var v :| v in ready && ready[v].id == id;
      assert v in ready - {w};
    }
  }

  lemma AcquireKeepsAccounting(h: World, w: nat)
    requires Accounting(h)
    ensures Accounting(TryAcquireStep(h, w))
  {
    var l := h.broker.ledger;
    if w in h.waiters && w in h.broker.ready {
      assert !Queues(l.waiters, w);
      hide Inv, ReadyOk, GrantsAccounted, Queues;
      AcquireKeepsGrants(l.active, l.waiters, l.nextWaiter, h.broker.ready, h.leases, w);
    }
  }

  // ---------------------------------------------------------------------------
  // Giving handles up

  /** `ready` restricted to entries that survive freeing the grant `id`. */
  ghost predicate Survives(before: map<nat, Grant>, ready: map<nat, Grant>, id: nat) {
    forall w :: w in ready ==> w in before && ready[w] == before[w] && ready[w].id != id
  }

  lemma ReleaseDispatches(l: Ledger, before: map<nat, Grant>, ready: map<nat, Grant>, id: nat)
    requires Inv(l) && ReadyOk(l.active, l.waiters, l.nextWaiter, before) && id in l.active
    requires Survives(before, ready, id)
    ensures CheckedSub(l.inUse, l.active[id].resources).Some?
    ensures var (r, l') := Release(l, id, l.active[id].owner);
            && (r.Err? <==> l.nextGrant + AdmissibleRun(Freed(l, id)) > U64_MAX)
            && (r.Err? ==> r == Err(IdExhausted))
            && (r.Ok? ==> Inv(l') && Dispatches(Freed(l, id), ready, r.value, l'))
  {
    hide AdmittedPrefix, Release, Inv, ReadyOk, AdmissibleRun, Increasing, Survives;
    ReleaseKeeps(l, id, l.active[id].owner);
    NumbersAreBelow(l);
    SurvivorsAreReady(l.active, l.waiters, l.nextWaiter, before, ready, id);
  }

  lemma NumbersAreBelow(l: Ledger)
    requires Inv(l)
    ensures Increasing(l.waiters)
    ensures forall i :: 0 <= i < |l.waiters| ==> l.waiters[i].id < l.nextWaiter
    ensures forall id :: id in l.active ==> id < l.nextGrant
  {
    QueueIdsBelow(l);
  }

  lemma SurvivorsAreReady(active: map<nat, Grant>, queue: seq<Waiter>, nextWaiter: nat, before: map<nat, Grant>,
                          ready: map<nat, Grant>, id: nat)
    requires ReadyOk(active, queue, nextWaiter, before) && Survives(before, ready, id)
    ensures ReadyOk(active - {id}, queue, nextWaiter, ready)
  {
  }

  lemma QueueIdsBelow(l: Ledger)
    requires QueueOk(l)
    ensures Increasing(l.waiters)
    ensures forall i :: 0 <= i < |l.waiters| ==> l.waiters[i].id < l.nextWaiter
  {
    forall i | 0 <= i < |l.waiters| ensures l.waiters[i].id < l.nextWaiter {
      assert WaiterOk(l, l.waiters[i]);
    }
  }

  lemma FreedLeaseAccounted(active: map<nat, Grant>, leases: map<nat, Grant>, ready: map<nat, Grant>, id: nat)
    requires GrantsAccounted(active, leases, ready) && id in leases
    ensures GrantsAccounted(active - {id}, leases - {id}, ready)
    ensures !GrantsAccounted(active, leases - {id}, ready)
    ensures Survives(ready, ready, id)
  {
    assert !IsReady(ready, id);
  }

  /** What giving up a handle did, if `freed` is the ledger in which it no longer counts. */
  ghost predicate Concluded(b: Broker, freed: Ledger, leases: map<nat, Grant>, handles: set<nat>,
                            outcome: (Result<seq<nat>, LedgerError>, Broker)) {
    if freed.nextGrant + AdmissibleRun(freed) <= U64_MAX
    then outcome.0.Ok? && Accounting(World(outcome.1, leases, handles))
    else outcome == (Err(IdExhausted), b)
  }

  lemma FinishConcludes(b: Broker, ready: map<nat, Grant>, freed: Ledger,
                        dispatch: (Result<seq<Grant>, LedgerError>, Ledger),
                        leases: map<nat, Grant>, handles: set<nat>)
    requires dispatch.0.Err? <==> freed.nextGrant + AdmissibleRun(freed) > U64_MAX
    requires dispatch.0.Err? ==> dispatch.0 == Err(IdExhausted)
    requires dispatch.0.Ok? ==> Inv(dispatch.1) && Dispatches(freed, ready, dispatch.0.value, dispatch.1)
    requires GrantsAccounted(freed.active, leases, ready) && WaitersAccounted(freed.waiters, ready, handles)
    ensures Concluded(b, freed, leases, handles, Finish(b, ready, dispatch))
  {
    hide Inv, AdmissibleRun, Dispatches, GrantsAccounted, WaitersAccounted, Accounting, Recordable;
    if dispatch.0.Ok? {
      DispatchKeepsAccounting(freed, ready, dispatch.0.value, dispatch.1, leases, handles);
    }
  }

  /**
   Giving up a live handle succeeds and keeps the accounting if grant numbers suffice;
   otherwise it is refused for want of numbers and the accounting is broken.
   */
  ghost predicate SettledByNumbers(h: World, op: HandleOp) {
    if IdsSuffice(h, op) then Reported(h, op) == None && Accounting(Step(h, op))
    else Reported(h, op) == Some(IdExhausted) && !Accounting(Step(h, op))
  }

  lemma NumbersForLease(h: World, id: nat)
    requires var l := h.broker.ledger;
             id in h.leases && id in l.active && CheckedSub(l.inUse, l.active[id].resources).Some?
    ensures var freed := Freed(h.broker.ledger, id);
            IdsSuffice(h, GiveUpLease(id)) <==> freed.nextGrant + AdmissibleRun(freed) <= U64_MAX
  {
    hide AdmissibleRun;
  }

  lemma NumbersForReady(h: World, w: nat)
    requires var (l, ready) := (h.broker.ledger, h.broker.ready);
             w in ready && ready[w].id in l.active && CheckedSub(l.inUse, l.active[ready[w].id].resources).Some?
    ensures var freed := Freed(h.broker.ledger, h.broker.ready[w].id);
            IdsSuffice(h, GiveUpWaiter(w)) <==> freed.nextGrant + AdmissibleRun(freed) <= U64_MAX
  {
    hide AdmissibleRun;
  }

  lemma NumbersForQueued(h: World, w: nat)
    requires var l := h.broker.ledger;
             && w !in h.broker.ready && Queues(l.waiters, w)
             && l.waiters[Position(l.waiters, w)].variableBytes <= l.waiterBytes
    ensures var freed := Withdrawn(h.broker.ledger, Position(h.broker.ledger.waiters, w));
            IdsSuffice(h, GiveUpWaiter(w)) <==> freed.nextGrant + AdmissibleRun(freed) <= U64_MAX
  {
    hide AdmissibleRun, Queues, Position;
  }

  lemma LeaseSettles(h: World, id: nat, freed: Ledger)
    requires id in h.leases && !Accounting(World(h.broker, h.leases - {id}, h.waiters))
    requires IdsSuffice(h, GiveUpLease(id)) <==> freed.nextGrant + AdmissibleRun(freed) <= U64_MAX
    requires Concluded(h.broker, freed, h.leases - {id}, h.waiters, ReleaseGrant(h.broker, id, h.leases[id].owner))
    ensures SettledByNumbers(h, GiveUpLease(id))
  {
    hide IdsSuffice, AdmissibleRun, Accounting, ReleaseGrant;
  }

  lemma WaiterSettles(h: World, w: nat, freed: Ledger)
    requires !Accounting(World(h.broker, h.leases, h.waiters - {w}))
    requires IdsSuffice(h, GiveUpWaiter(w)) <==> freed.nextGrant + AdmissibleRun(freed) <= U64_MAX
    requires Concluded(h.broker, freed, h.leases, h.waiters - {w}, CancelHandle(h.broker, w))
    ensures SettledByNumbers(h, GiveUpWaiter(w))
  {
    hide IdsSuffice, AdmissibleRun, Accounting, CancelHandle;
  }

  /** A live lease stands for an active grant that nothing else stands for. */
  lemma LeaseCounts(h: World, id: nat)
    requires Accounting(h) && id in h.leases
    ensures var (l, ready) := (h.broker.ledger, h.broker.ready);
            && id in l.active && l.active[id] == h.leases[id] && Survives(ready, ready, id)
            && GrantsAccounted(l.active - {id}, h.leases - {id}, ready)
            && !Accounting(World(h.broker, h.leases - {id}, h.waiters))
  {
    hide Inv, ReadyOk, WaitersAccounted;
    FreedLeaseAccounted(h.broker.ledger.active, h.leases, h.broker.ready, id);
  }

  lemma GiveUpLiveLease(h: World, id: nat)
    requires Accounting(h) && id in h.leases
    ensures SettledByNumbers(h, GiveUpLease(id))
  {
    var (b, l, ready) := (h.broker, h.broker.ledger, h.broker.ready);
    LeaseCounts(h, id);
    hide Inv, ReadyOk, GrantsAccounted, WaitersAccounted, Release, AdmissibleRun, Dispatches, Survives, Finish;
    hide SettledByNumbers, Concluded, IdsSuffice;
    ReleaseDispatches(l, ready, ready, id);
    FinishConcludes(b, ready, Freed(l, id), Release(l, id, h.leases[id].owner), h.leases - {id}, h.waiters);
    NumbersForLease(h, id);
    LeaseSettles(h, id, Freed(l, id));
  }

  lemma FreedReadyAccounted(active: map<nat, Grant>, queue: seq<Waiter>, nextWaiter: nat, leases: map<nat, Grant>,
                            ready: map<nat, Grant>, w: nat)
    requires GrantsAccounted(active, leases, ready) && ReadyOk(active, queue, nextWaiter, ready) && w in ready
    ensures GrantsAccounted(active - {ready[w].id}, leases, ready - {w})
    ensures Survives(ready, ready - {w}, ready[w].id)
  {
    forall id | id in active && id != ready[w].id && id !in leases ensures IsReady(ready - {w}, id) {
      var v :| v in ready && ready[v].id == id;
      assert v in ready - {w};
    }
  }

  /** A ready entry stands for an active grant and a live handle that nothing else stands for. */
  lemma ReadyEntryCounts(h: World, w: nat)
    requires Accounting(h) && w in h.broker.ready
    ensures var (l, ready, id) := (h.broker.ledger, h.broker.ready, h.broker.ready[w].id);
            && id in l.active && l.active[id] == ready[w] && Survives(ready, ready - {w}, id)
            && GrantsAccounted(l.active - {id}, h.leases, ready - {w})
            && WaitersAccounted(l.waiters, ready - {w}, h.waiters - {w})
            && !Accounting(World(h.broker, h.leases, h.waiters - {w}))
  {
    var (l, ready) := (h.broker.ledger, h.broker.ready);
    assert ready[w].id in l.active && l.active[ready[w].id] == ready[w];
    hide Inv, GrantsAccounted, WaitersAccounted, ReadyOk;
    FreedReadyAccounted(l.active, l.waiters, l.nextWaiter, h.leases, ready, w);
    CollectedHandles(l.active, l.waiters, l.nextWaiter, ready, h.waiters, w);
  }

  lemma GiveUpReadyWaiter(h: World, w: nat)
    requires Accounting(h) && w in h.broker.ready
    ensures SettledByNumbers(h, GiveUpWaiter(w))
  {
    var (b, l, ready) := (h.broker, h.broker.ledger, h.broker.ready);
    var id := ready[w].id;
    ReadyEntryCounts(h, w);
    hide Inv, ReadyOk, GrantsAccounted, WaitersAccounted, Release, AdmissibleRun, Dispatches, Survives, Finish;
    hide SettledByNumbers, Concluded, IdsSuffice;
    ReleaseDispatches(l, ready, ready - {w}, id);
    FinishConcludes(b, ready - {w}, Freed(l, id), Release(l, id, ready[w].owner), h.leases, h.waiters - {w});
    NumbersForReady(h, w);
    WaiterSettles(h, w, Freed(l, id));
  }

  lemma CollectedHandles(active: map<nat, Grant>, queue: seq<Waiter>, nextWaiter: nat, ready: map<nat, Grant>,
                         handles: set<nat>, w: nat)
    requires ReadyOk(active, queue, nextWaiter, ready) && WaitersAccounted(queue, ready, handles) && w in ready
    ensures WaitersAccounted(queue, ready - {w}, handles - {w})
    ensures !WaitersAccounted(queue, ready, handles - {w})
  {
  }

  lemma WithoutQueues(waiters: seq<Waiter>, p: nat, v: nat)
    requires Increasing(waiters) && p < |waiters|
    ensures Queues(Without(waiters, p), v) <==> Queues(waiters, v) && v != waiters[p].id
  {
    var rest := Without(waiters, p);
    if Queues(waiters, v) && v != waiters[p].id {
      var i :| 0 <= i < |waiters| && waiters[i].id == v;
      var j := if i < p then i else i - 1;
      assert rest[j] == waiters[i];
      assert rest[j].id == v;
    }
    if Queues(rest, v) {
      var j :| 0 <= j < |rest| && rest[j].id == v;
      var i := if j < p then j else j + 1;
      assert rest[j] == waiters[i];
      assert waiters[i].id == v;
    }
  }

  lemma WithoutIncreasing(waiters: seq<Waiter>, p: nat)
    requires Increasing(waiters) && p < |waiters|
    ensures Increasing(Without(waiters, p))
    ensures forall i :: 0 <= i < |waiters| - 1 ==> Without(waiters, p)[i] == waiters[if i < p then i else i + 1]
  {
  }

  lemma WithdrawnReady(l: Ledger, ready: map<nat, Grant>, p: nat)
    requires ReadyOk(l.active, l.waiters, l.nextWaiter, ready) && QueueOk(l)
    requires p < |l.waiters| && l.waiters[p].variableBytes <= l.waiterBytes
    ensures var l1 := Withdrawn(l, p);
            && ReadyOk(l1.active, l1.waiters, l1.nextWaiter, ready)
            && Increasing(l1.waiters)
            && (forall i :: 0 <= i < |l1.waiters| ==> l1.waiters[i].id < l1.nextWaiter)
  {
    QueueIdsBelow(l);
    WithoutIncreasing(l.waiters, p);
    hide Without, QueueOk, Increasing;
  }

  lemma WithdrawDispatches(l: Ledger, ready: map<nat, Grant>, w: nat)
    requires Inv(l) && ReadyOk(l.active, l.waiters, l.nextWaiter, ready) && Queues(l.waiters, w)
    ensures var p := Position(l.waiters, w);
            && l.waiters[p].variableBytes <= l.waiterBytes
            && var (r, l') := CancelWaiter(l, w);
            && (r.Err? <==> l.nextGrant + AdmissibleRun(Withdrawn(l, p)) > U64_MAX)
            && (r.Err? ==> r == Err(IdExhausted))
            && (r.Ok? ==> Inv(l') && Dispatches(Withdrawn(l, p), ready, r.value, l'))
  {
    CancelKeeps(l, w);
    hide AdmittedPrefix, CancelWaiter, QueueOk, LimitsOk, HeadBlocked, Increasing, ReadyOk, Without, AdmissibleRun;
    WithdrawnReady(l, ready, Position(l.waiters, w));
  }

  /** A queued waiter stands for a live handle that nothing else stands for. */
  lemma QueuedWaiterCounts(h: World, w: nat)
    requires Accounting(h) && w !in h.broker.ready && Queues(h.broker.ledger.waiters, w)
    ensures var (l, ready) := (h.broker.ledger, h.broker.ready);
            && GrantsAccounted(l.active, h.leases, ready)
            && WaitersAccounted(Without(l.waiters, Position(l.waiters, w)), ready, h.waiters - {w})
            && !Accounting(World(h.broker, h.leases, h.waiters - {w}))
  {
    QueueIdsBelow(h.broker.ledger);
    hide Inv, GrantsAccounted, WaitersAccounted, ReadyOk, Queues, Without, Increasing;
    WithdrawnHandles(h.broker.ledger.waiters, h.broker.ready, h.waiters, w);
  }

  lemma GiveUpQueuedWaiter(h: World, w: nat)
    requires Accounting(h) && w !in h.broker.ready && Queues(h.broker.ledger.waiters, w)
    ensures SettledByNumbers(h, GiveUpWaiter(w))
  {
    var (b, l, ready) := (h.broker, h.broker.ledger, h.broker.ready);
    QueuedWaiterCounts(h, w);
    hide Inv, ReadyOk, GrantsAccounted, WaitersAccounted, CancelWaiter, AdmissibleRun, Dispatches, Finish, Queues;
    hide SettledByNumbers, Concluded, Without, IdsSuffice;
    WithdrawDispatches(l, ready, w);
    var withdrawn := Withdrawn(l, Position(l.waiters, w));
    FinishConcludes(b, ready, withdrawn, CancelWaiter(l, w), h.leases, h.waiters - {w});
    NumbersForQueued(h, w);
    WaiterSettles(h, w, withdrawn);
  }

  lemma WithdrawnHandles(queue: seq<Waiter>, ready: map<nat, Grant>, handles: set<nat>, w: nat)
    requires Increasing(queue) && WaitersAccounted(queue, ready, handles) && w !in ready && Queues(queue, w)
    ensures WaitersAccounted(Without(queue, Position(queue, w)), ready, handles - {w})
    ensures !WaitersAccounted(queue, ready, handles - {w})
  {
    var p := Position(queue, w);
    forall v ensures Queues(Without(queue, p), v) <==> Queues(queue, v) && v != w {
      WithoutQueues(queue, p, v);
    }
  }

  /** Cancelling through an already resolved handle changes nothing. */
  lemma GiveUpResolvedWaiter(h: World, w: nat)
    requires Accounting(h) && w !in h.waiters
    ensures GiveUpWaiterStep(h, w) == h && CancelHandle(h.broker, w).0 == Err(UnknownWaiter(w))
  {
  }

  /**
   In an accounted world no operation reports an invariant violation, and giving up a live
   handle is refused if and only if grant numbers run out, and then with that error.
   */
  lemma RepliesAreExact(h: World, op: HandleOp)
    requires Accounting(h)
    ensures Reported(h, op) != Some(InvariantViolation)
    ensures GivesUp(h, op) ==> (Reported(h, op).None? <==> IdsSuffice(h, op))
    ensures GivesUp(h, op) && Reported(h, op).Some? ==> Reported(h, op) == Some(IdExhausted)
  {
    hide IdsSuffice, Inv, ReadyOk, GrantsAccounted, CancelHandle, ReleaseGrant, Request;
    match op
    case Demand(owner, resources) => RequestReportsNoViolation(h.broker.ledger, owner, resources);
    case TryAcquire(w) =>
    case GiveUpLease(id) => if id in h.leases { GiveUpLiveLease(h, id); }
    case GiveUpWaiter(w) =>
      if w in h.broker.ready {
        GiveUpReadyWaiter(h, w);
      } else if Queues(h.broker.ledger.waiters, w) {
        GiveUpQueuedWaiter(h, w);
      } else {
        GiveUpResolvedWaiter(h, w);
      }
  }

  lemma RequestReportsNoViolation(l: Ledger, owner: nat, resources: ResourceVector)
    ensures Request(l, owner, resources).0 != Err(InvariantViolation)
  {
  }

  // ---------------------------------------------------------------------------
  // Main results

  /** One step keeps the accounting if and only if it does not run out of grant numbers. */
  lemma StepKeepsAccountingIff(h: World, op: HandleOp)
    requires Accounting(h)
    ensures Accounting(Step(h, op)) <==> IdsSuffice(h, op)
  {
    hide IdsSuffice, AskStep, GiveUpWaiterStep, TryAcquireStep, Inv, ReadyOk, GrantsAccounted;
    match op
    case Demand(owner, resources) =>
      AskKeepsAccounting(h, owner, resources);
      assert IdsSuffice(h, op) by { AskNeedsNoIds(h, op); }
    case TryAcquire(w) =>
      AcquireKeepsAccounting(h, w);
      assert IdsSuffice(h, op) by { AskNeedsNoIds(h, op); }
    case GiveUpLease(id) =>
      if id in h.leases { GiveUpLiveLease(h, id); } else { AskNeedsNoIds(h, op); }
    case GiveUpWaiter(w) =>
      if w in h.broker.ready {
        GiveUpReadyWaiter(h, w);
      } else if Queues(h.broker.ledger.waiters, w) {
        GiveUpQueuedWaiter(h, w);
      } else {
        GiveUpResolvedWaiter(h, w);
        AskNeedsNoIds(h, op);
      }
  }

  lemma AskNeedsNoIds(h: World, op: HandleOp)
    requires op.Demand? || op.TryAcquire? || (op.GiveUpLease? && op.grantId !in h.leases)
             || (op.GiveUpWaiter? && op.waiterId !in h.broker.ready && !Queues(h.broker.ledger.waiters, op.waiterId))
    ensures IdsSuffice(h, op)
  {
  }

  function RunHandles(h: World, ops: seq<HandleOp>): World
    decreases |ops|
  {
    if ops == [] then h else RunHandles(Step(h, ops[0]), ops[1..])
  }

  function Replies(h: World, ops: seq<HandleOp>): seq<Option<LedgerError>>
    decreases |ops|
  {
    if ops == [] then [] else [Reported(h, ops[0])] + Replies(Step(h, ops[0]), ops[1..])
  }

  /** Along the whole run, no given-up handle unblocks more waiters than there are grant numbers left. */
  predicate IdsSufficeThroughout(h: World, ops: seq<HandleOp>)
    decreases |ops|
  {
    ops == [] || (IdsSuffice(h, ops[0]) && IdsSufficeThroughout(Step(h, ops[0]), ops[1..]))
  }

  /**
   Over any run of handle operations that does not exhaust grant numbers: active grants
   are exactly the live leases plus the ready entries, live waiter handles are exactly the
   queued plus the ready identities, no invariant violation is ever reported, and once every
   handle is given up, in whatever order, the broker is empty.
   */
  lemma {:induction false} HandlesAccountForEverything(h: World, ops: seq<HandleOp>)
    requires Accounting(h) && IdsSufficeThroughout(h, ops)
    ensures Accounting(RunHandles(h, ops))
    ensures Some(InvariantViolation) !in Replies(h, ops)
    ensures var end := RunHandles(h, ops);
            end.leases == map[] && end.waiters == {} ==>
              && end.broker.ready == map[]
              && end.broker.ledger.active == map[]
              && end.broker.ledger.waiters == []
              && end.broker.ledger.inUse == ZERO
    decreases |ops|
  {
    hide Step, IdsSuffice, Reported;
    if ops == [] {
      if h.leases == map[] && h.waiters == {} {
        NoHandlesNoGrants(h);
      }
    } else {
      hide Accounting;
      StepKeepsAccountingIff(h, ops[0]);
      RepliesAreExact(h, ops[0]);
      HandlesAccountForEverything(Step(h, ops[0]), ops[1..]);
    }
  }

  /**
   Even where numbers run out: `h` differs from some accounted world only in handles that
   are gone although their grant or queue entry stayed behind.
   */
  ghost predicate Backs(accounted: World, h: World) {
    && Accounting(accounted)
    && accounted.broker == h.broker
    && h.waiters <= accounted.waiters
    && forall id :: id in h.leases ==> id in accounted.leases && accounted.leases[id] == h.leases[id]
  }

  /** A refused give-up leaves the broker as it was. */
  lemma RefusedGiveUpChangesNoBroker(h: World, op: HandleOp)
    requires op.GiveUpLease? || op.GiveUpWaiter?
    ensures Reported(h, op).Some? ==> Step(h, op).broker == h.broker
  {
    hide Release, CancelWaiter, Recordable;
  }

  /** An accounted world with more handles reacts alike to the operations of the world it backs. */
  lemma BackingReactsAlike(accounted: World, h: World, op: HandleOp)
    requires Backs(accounted, h) && (op.GiveUpLease? ==> op.grantId in h.leases)
        && (op.TryAcquire? ==> op.waiterId in h.waiters)
    ensures Reported(accounted, op) == Reported(h, op)
    ensures var (a', h') := (Step(accounted, op), Step(h, op));
            && a'.broker == h'.broker && h'.waiters <= a'.waiters
            && forall id :: id in h'.leases ==> id in a'.leases && a'.leases[id] == h'.leases[id]
  {
    hide Accounting, Request, ReleaseGrant, CancelHandle;
  }

  /** One step of a backed world: no violation is reported, and an accounted world still backs the result. */
  lemma StepStaysBacked(accounted: World, h: World, op: HandleOp) returns (next: World)
    requires Backs(accounted, h)
    ensures Backs(next, Step(h, op)) && Reported(h, op) != Some(InvariantViolation)
  {
    hide Accounting, Step, Reported, IdsSuffice;
    next := accounted;
    if (op.GiveUpLease? && op.grantId !in h.leases) || (op.TryAcquire? && op.waiterId !in h.waiters) {
      DeadHandleDoesNothing(h, op);
      return;
    }
    BackingReactsAlike(accounted, h, op);
    RepliesAreExact(accounted, op);
    StepKeepsAccountingIff(accounted, op);
    if IdsSuffice(accounted, op) {
      next := Step(accounted, op);
    } else {
      ShortOfNumbersIsGiveUp(accounted, op);
      RefusedGiveUpChangesNoBroker(h, op);
      GiveUpOnlyLosesHandles(h, op);
    }
  }

  lemma DeadHandleDoesNothing(h: World, op: HandleOp)
    requires (op.GiveUpLease? && op.grantId !in h.leases) || (op.TryAcquire? && op.waiterId !in h.waiters)
    ensures Step(h, op) == h && Reported(h, op) != Some(InvariantViolation)
  {
  }

  lemma ShortOfNumbersIsGiveUp(h: World, op: HandleOp)
    requires Accounting(h) && !IdsSuffice(h, op)
    ensures GivesUp(h, op) && (op.GiveUpLease? || op.GiveUpWaiter?)
  {
    hide Inv, GrantsAccounted, ReadyOk;
  }

  lemma GiveUpOnlyLosesHandles(h: World, op: HandleOp)
    requires op.GiveUpLease? || op.GiveUpWaiter?
    ensures Step(h, op).waiters <= h.waiters
    ensures forall id :: id in Step(h, op).leases ==> id in h.leases && Step(h, op).leases[id] == h.leases[id]
  {
    hide ReleaseGrant, CancelHandle;
  }

  /**
   No run whatsoever, whether or not it exhausts grant numbers, makes an operation report an
   invariant violation; and at every moment the broker is accounted for by the live handles
   together with those lost to exhausted numbers.
   */
  lemma {:induction false} ViolationsNeverHappen(accounted: World, h: World, ops: seq<HandleOp>) returns (end: World)
    requires Backs(accounted, h)
    ensures Some(InvariantViolation) !in Replies(h, ops)
    ensures Backs(end, RunHandles(h, ops))
    decreases |ops|
  {
    hide Step, Reported, Backs;
    if ops != [] {
      var next := StepStaysBacked(accounted, h, ops[0]);
      end := ViolationsNeverHappen(next, Step(h, ops[0]), ops[1..]);
    } else {
      end := accounted;
    }
  }

  lemma NoHandlesNoGrants(h: World)
    requires Accounting(h) && h.leases == map[] && h.waiters == {}
    ensures h.broker.ready == map[] && h.broker.ledger.active == map[]
    ensures h.broker.ledger.waiters == [] && h.broker.ledger.inUse == ZERO
  {
    hide Inv;
    assert h.broker.ready.Keys == {};
    assert h.broker.ready == map[];
    assert forall id :: !IsReady(h.broker.ready, id);
    assert h.broker.ledger.active.Keys == {};
    assert h.broker.ledger.active == map[];
    IdleLedgerHasNoWaiters(h.broker.ledger);
  }

  function FreshWorld(ledger: Ledger): World {
    World(Broker(ledger, map[]), map[], {})
  }

  lemma FreshWorldAccounted(contract: ResourceContract)
    requires WellTyped(contract) && FromContract(contract).Ok?
    ensures Accounting(FreshWorld(FromContract(contract).value))
  {
    ContractBuildsSoundLedger(contract);
  }

  /** A condition a caller can read off before giving anything up: spare numbers for the whole queue. */
  lemma {:induction false} QueueBoundsTheRun(l: Ledger)
    ensures AdmissibleRun(l) <= |l.waiters|
    decreases |l.waiters|
  {
    if HeadAdmissible(l) && l.waiterBytes >= l.waiters[0].variableBytes {
      QueueBoundsTheRun(AdmitHead(l));
    }
  }

  lemma SpareNumbersSuffice(h: World, op: HandleOp)
    requires h.broker.ledger.nextGrant + |h.broker.ledger.waiters| <= U64_MAX
    ensures IdsSuffice(h, op)
  {
    var l := h.broker.ledger;
    forall id | id in l.active && CheckedSub(l.inUse, l.active[id].resources).Some?
      ensures l.nextGrant + AdmissibleRun(Freed(l, id)) <= U64_MAX
    {
      QueueBoundsTheRun(Freed(l, id));
    }
    forall p: nat | p < |l.waiters| && l.waiters[p].variableBytes <= l.waiterBytes
      ensures l.nextGrant + AdmissibleRun(Withdrawn(l, p)) <= U64_MAX
    {
      QueueBoundsTheRun(Withdrawn(l, p));
    }
  }

  // ---------------------------------------------------------------------------
  // Where numbers run out

  /** Asking and releasing, over and over: the grants are numbered from `first` on. */
  function Churn(owner: nat, resources: ResourceVector, first: nat, n: nat): seq<HandleOp>
    decreases n
  {
    if n == 0 then [] else [Demand(owner, resources), GiveUpLease(first)] + Churn(owner, resources, first + 1, n - 1)
  }

  /** An empty ledger that admits the request. */
  predicate Ready(l: Ledger, owner: nat, resources: ResourceVector) {
    l.active == map[] && l.waiters == [] && FitsWithin(resources, l.capacity) && Admissible(l, owner, resources)
  }

  lemma ChurnOnce(l: Ledger, owner: nat, resources: ResourceVector)
    requires Inv(l) && Ready(l, owner, resources) && l.nextGrant < U64_MAX
    ensures var l' := l.(nextGrant := l.nextGrant + 1);
            && Inv(l') && Ready(l', owner, resources)
            && Step(Step(FreshWorld(l), Demand(owner, resources)), GiveUpLease(l.nextGrant)) == FreshWorld(l')
  {
    var g := Grant(l.nextGrant, owner, resources, None);
    var (r, l1) := Request(l, owner, resources);
    AskGrants(l, owner, resources);
    RequestKeeps(l, owner, resources);
    ReleaseUndoesGrant(l, owner, resources);
    ReleaseKeeps(l1, g.id, owner);
    hide Inv, Request, Release, FitsWithin, CanGrant;
    var h1 := Step(FreshWorld(l), Demand(owner, resources));
    assert h1 == World(Broker(l1, map[]), map[g.id := g], {});
    assert h1.leases - {g.id} == map[];
    assert Recordable(map[], []) && Recorded(map[], []) == map[];
  }

  lemma AskGrants(l: Ledger, owner: nat, resources: ResourceVector)
    requires Ready(l, owner, resources) && l.nextGrant < U64_MAX
    ensures Request(l, owner, resources).0 == Ok(Granted(Grant(l.nextGrant, owner, resources, None)))
    ensures Request(l, owner, resources).1 ==
            l.(nextGrant := l.nextGrant + 1, active := map[l.nextGrant := Grant(l.nextGrant, owner, resources, None)],
               inUse := Plus(l.inUse, resources))
  {
    hide Plus, FitsWithin;
  }

  lemma {:induction false} ChurnUsesUpNumbers(l: Ledger, owner: nat, resources: ResourceVector, n: nat)
    requires Inv(l) && Ready(l, owner, resources) && l.nextGrant + n <= U64_MAX
    ensures var l' := l.(nextGrant := l.nextGrant + n);
            && Inv(l') && Ready(l', owner, resources)
            && RunHandles(FreshWorld(l), Churn(owner, resources, l.nextGrant, n)) == FreshWorld(l')
    decreases n
  {
    hide Step, Inv, Ready, RunHandles;
    if n == 0 {
      RunNothing(FreshWorld(l));
    } else {
      ChurnOnce(l, owner, resources);
      var later := Churn(owner, resources, l.nextGrant + 1, n - 1);
      RunTwo(FreshWorld(l), Demand(owner, resources), GiveUpLease(l.nextGrant), later);
      ChurnUsesUpNumbers(l.(nextGrant := l.nextGrant + 1), owner, resources, n - 1);
    }
  }

  lemma RunNothing(h: World)
    ensures RunHandles(h, []) == h
  {
  }

  lemma RunTwo(h: World, first: HandleOp, second: HandleOp, later: seq<HandleOp>)
    ensures RunHandles(h, [first, second] + later) == RunHandles(Step(Step(h, first), second), later)
  {
    hide Step;
    var ops := [first, second] + later;
    assert ops[0] == first && ops[1..] == [second] + later && ops[1..][0] == second && ops[1..][1..] == later;
  }

  lemma {:induction false} RunHandlesAppend(h: World, ops: seq<HandleOp>, more: seq<HandleOp>)
    ensures RunHandles(h, ops + more) == RunHandles(RunHandles(h, ops), more)
    decreases |ops|
  {
    hide Step;
    if ops == [] {
      assert ops + more == more;
    } else {
      assert (ops + more)[1..] == ops[1..] + more;
      RunHandlesAppend(Step(h, ops[0]), ops[1..], more);
    }
  }

  /** One request holds everything a second one by the same owner would need. */
  predicate OneAtATime(contract: ResourceContract, resources: ResourceVector) {
    && FitsWithin(resources, contract.capacity)
    && (contract.maxActivePerOwner == 1 || !FitsWithin(Plus(resources, resources), contract.capacity))
    && contract.maxWaiterItems > 0
    && DeclaredVariableBytes(resources).Some?
    && DeclaredVariableBytes(resources).value <= contract.maxWaiterDeclaredVariableBytes
  }

  /** Use up all grant numbers but one, take that one, and queue a second request behind it. */
  function Exhausting(owner: nat, resources: ResourceVector, last: nat): seq<HandleOp>
    requires last > 1
  {
    Churn(owner, resources, 1, last - 2) + [Demand(owner, resources), Demand(owner, resources)]
  }

  /** The ledger of the contract once all numbers below `next` are used up and everything is released. */
  function WornOut(contract: ResourceContract, next: nat): Ledger
    requires FromContract(contract).Ok?
  {
    FromContract(contract).value.(nextGrant := next)
  }

  lemma ContractIsReady(contract: ResourceContract, owner: nat, resources: ResourceVector)
    requires WellTyped(contract) && FromContract(contract).Ok? && FitsWithin(resources, contract.capacity)
    ensures Inv(FromContract(contract).value) && Ready(FromContract(contract).value, owner, resources)
  {
    ContractBuildsSoundLedger(contract);
    var l := FromContract(contract).value;
    assert OwnerGrants(l.active, owner) == {};
    PlusZero(resources);
    AdmissibleMeansFits(l, resources);
  }

  lemma PlusZero(resources: ResourceVector)
    ensures Plus(ZERO, resources) == resources
  {
  }

  /** The second of two requests waits behind the first. */
  lemma SecondAskQueues(contract: ResourceContract, owner: nat, resources: ResourceVector, next: nat)
    requires FromContract(contract).Ok? && OneAtATime(contract, resources) && next < U64_MAX
    requires Ready(WornOut(contract, next), owner, resources)
    ensures var l1 := Request(WornOut(contract, next), owner, resources).1;
            var bytes := DeclaredVariableBytes(resources).value;
            Request(l1, owner, resources) ==
              (Ok(Queued(1)),
               l1.(waiters := [Waiter(1, owner, resources, bytes)], waiterBytes := bytes, nextWaiter := 2))
  {
    AskGrants(WornOut(contract, next), owner, resources);
    var l1 := Request(WornOut(contract, next), owner, resources).1;
    assert OwnerGrants(l1.active, owner) == {next};
    PlusZero(resources);
    hide Plus, FitsWithin, DeclaredVariableBytes;
    assert !Admissible(l1, owner, resources);
    assert [] + [Waiter(1, owner, resources, DeclaredVariableBytes(resources).value)]
        == [Waiter(1, owner, resources, DeclaredVariableBytes(resources).value)];
  }

  /** Freed of the first request, the ledger would admit the second, but has no number for it. */
  lemma ReleaseNeedsNumber(contract: ResourceContract, owner: nat, resources: ResourceVector, next: nat)
    requires FromContract(contract).Ok? && OneAtATime(contract, resources) && next + 1 == U64_MAX
    requires Ready(WornOut(contract, next), owner, resources)
    ensures var h := Step(Step(FreshWorld(WornOut(contract, next)), Demand(owner, resources)),
                          Demand(owner, resources));
            && h.leases == map[next := Grant(next, owner, resources, None)]
            && h.broker.ledger.active == h.leases
            && !IdsSuffice(h, GiveUpLease(next))
  {
    var l := WornOut(contract, next);
    AskGrants(l, owner, resources);
    SecondAskQueues(contract, owner, resources, next);
    var l1 := Request(l, owner, resources).1;
    var l2 := Request(l1, owner, resources).1;
    IssueIsUndone(l.inUse, resources);
    assert l2.active - {next} == map[];
    var freed := Freed(l2, next);
    assert OwnerGrants(freed.active, owner) == {} == OwnerGrants(l.active, owner);
    assert Admissible(freed, owner, resources);
    hide Request, FitsWithin, Plus, DeclaredVariableBytes, OneAtATime, Ready;
    assert AdmissibleRun(freed) >= 1;
  }

  /**
   The accounting really breaks. For every contract under which an owner's second request has
   to wait behind its first: use up all grant numbers but one, take that one, queue a second
   request, and give the lease up. The release is refused for want of a number and the handle
   is gone, so the grant stays active with no lease to release it.
   */
  lemma LastNumberStrandsGrant(contract: ResourceContract, owner: nat, resources: ResourceVector, last: nat)
    requires WellTyped(contract) && FromContract(contract).Ok? && OneAtATime(contract, resources) && last == U64_MAX
    ensures var start := FreshWorld(FromContract(contract).value);
            var h := RunHandles(start, Exhausting(owner, resources, last));
            var end := RunHandles(start, Exhausting(owner, resources, last) + [GiveUpLease(last - 1)]);
            && Accounting(start) && Accounting(h) && last - 1 in h.leases
            && Reported(h, GiveUpLease(last - 1)) == Some(IdExhausted)
            && end.leases == map[] && last - 1 in end.broker.ledger.active
            && !Accounting(end)
  {
    var start := FreshWorld(FromContract(contract).value);
    var l := WornOut(contract, last - 1);
    var ask := Demand(owner, resources);
    FreshWorldAccounted(contract);
    ContractIsReady(contract, owner, resources);
    ChurnUsesUpNumbers(FromContract(contract).value, owner, resources, last - 2);
    var h := Step(Step(FreshWorld(l), ask), ask);
    assert RunHandles(start, Exhausting(owner, resources, last)) == h by {
      hide *;
      RunHandlesAppend(start, Churn(owner, resources, 1, last - 2), [ask, ask]);
      RunTwo(FreshWorld(l), ask, ask, []);
      RunNothing(h);
    }
    assert Accounting(FreshWorld(l));
    StepKeepsAccountingIff(FreshWorld(l), ask);
    StepKeepsAccountingIff(Step(FreshWorld(l), ask), ask);
    ReleaseNeedsNumber(contract, owner, resources, last - 1);
    hide *;
    LastReleaseIsRefused(h, last - 1);
    RunHandlesAppend(start, Exhausting(owner, resources, last), [GiveUpLease(last - 1)]);
  }

  const ONE_HANDLE: ResourceVector := ZERO.(openHandles := 1)

  /** A valid contract that admits one open handle at a time and one waiter. */
  const ONE_SLOT: ResourceContract :=
    ResourceContract(RESOURCE_VECTOR_SCHEMA_ID, RESOURCE_CONTRACT_VERSION, ONE_HANDLE, 1, 1, 1, 0)

  /** The failing run written out for that contract, requested by owner 7. */
  lemma StrandedGrant(last: nat)
    requires last == U64_MAX
    ensures var end := RunHandles(FreshWorld(FromContract(ONE_SLOT).value),
                                  Exhausting(7, ONE_HANDLE, last) + [GiveUpLease(last - 1)]);
            end.leases == map[] && last - 1 in end.broker.ledger.active && !Accounting(end)
  {
    assert WellTyped(ONE_SLOT) && FromContract(ONE_SLOT).Ok? && OneAtATime(ONE_SLOT, ONE_HANDLE);
    hide *;
    LastNumberStrandsGrant(ONE_SLOT, 7, ONE_HANDLE, last);
  }

  /** A refused release leaves the grant behind without its lease. */
  lemma LastReleaseIsRefused(h: World, id: nat)
    requires Accounting(h) && id in h.leases && !IdsSuffice(h, GiveUpLease(id))
    ensures Step(h, GiveUpLease(id)) == h.(leases := h.leases - {id})
    ensures !Accounting(Step(h, GiveUpLease(id))) && Reported(h, GiveUpLease(id)) == Some(IdExhausted)
    ensures RunHandles(h, [GiveUpLease(id)]) == Step(h, GiveUpLease(id))
  {
    hide Accounting, IdsSuffice;
    GiveUpLiveLease(h, id);
    RefusedGiveUpChangesNoBroker(h, GiveUpLease(id));
  }
}
