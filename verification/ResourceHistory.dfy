/**
 What holds over every history of requests, cancellations and releases: accounting,
 no lost wake-up, first-come-first-served order, and no starvation.
 */
module ResourceHistories {
  import opened Wrappers
  import opened ResourceVectors
  import opened ResourceLedgers

  datatype Op =
    | Ask(owner: nat, resources: ResourceVector)
    | Withdraw(waiterId: nat)
    | GiveBack(grantId: nat, owner: nat)

  datatype Reply = Admitted(admission: Admission) | Dispatched(grants: seq<Grant>) | Refused(error: LedgerError)

  function Dispatch(outcome: (Result<seq<Grant>, LedgerError>, Ledger)): (Reply, Ledger) {
    match outcome.0
    case Ok(grants) => (Dispatched(grants), outcome.1)
    case Err(error) => (Refused(error), outcome.1)
  }

  function Apply(l: Ledger, op: Op): (Reply, Ledger) {
    match op
    case Ask(owner, resources) =>
      var (r, l') := Request(l, owner, resources);
      (match r case Ok(admission) => Admitted(admission) case Err(error) => Refused(error), l')
    case Withdraw(id) => Dispatch(CancelWaiter(l, id))
    case GiveBack(id, owner) => Dispatch(Release(l, id, owner))
  }

  function Run(l: Ledger, ops: seq<Op>): (r: (seq<Reply>, Ledger))
    ensures |r.0| == |ops|
    decreases |ops|
  {
    if ops == [] then ([], l)
    else
      var (reply, l1) := Apply(l, ops[0]);
      var (replies, l2) := Run(l1, ops[1..]);
      ([reply] + replies, l2)
  }

  // ---------------------------------------------------------------------------
  // Accounting and the self-check

  /** The in-order checked sum that the self-check recomputes. */
  function CheckedHeldBelow(active: map<nat, Grant>, n: nat): Option<ResourceVector> {
    if n == 0 then Some(ZERO)
    else
      var below := CheckedHeldBelow(active, n - 1);
      if below.Some? && n - 1 in active then CheckedAdd(below.value, active[n - 1].resources) else below
  }

  predicate VerifyPasses(l: Ledger) {
    && CheckedHeldBelow(l.active, l.nextGrant) == Some(l.inUse)
    && FitsWithin(l.inUse, l.capacity)
    && QueuedBytes(l.waiters) == l.waiterBytes <= U64_MAX
    && |l.active| <= l.maxActiveGrants
    && (forall id :: id in l.active ==> |OwnerGrants(l.active, l.active[id].owner)| <= l.maxActivePerOwner)
    && |l.waiters| <= l.maxWaiters
    && l.waiterBytes <= l.maxWaiterBytes
  }

  lemma {:induction false} CheckedSumAgrees(active: map<nat, Grant>, n: nat)
    requires Representable(HeldBelow(active, n))
    ensures CheckedHeldBelow(active, n) == Some(HeldBelow(active, n))
  {
    if n > 0 {
      if n - 1 in active {
        PlusGrows(HeldBelow(active, n - 1), active[n - 1].resources);
      }
      CheckedSumAgrees(active, n - 1);
    }
  }

  lemma StepKeeps(l: Ledger, op: Op)
    requires Inv(l)
    ensures Inv(Apply(l, op).1)
    ensures Apply(l, op).0.Refused? ==> Apply(l, op).1 == l
    ensures Apply(l, op).0 != Refused(InvariantViolation)
    ensures SameLimits(l, Apply(l, op).1)
    ensures l.nextGrant <= Apply(l, op).1.nextGrant
  {
    hide Inv, Drain;
    match op
    case Ask(owner, resources) => RequestKeeps(l, owner, resources);
    case Withdraw(id) => CancelKeeps(l, id);
    case GiveBack(id, owner) => ReleaseKeeps(l, id, owner);
  }

  ghost predicate WellTyped(contract: ResourceContract) {
    && Representable(contract.capacity)
    && contract.maxWaiterDeclaredVariableBytes <= U64_MAX
  }

  /**
   Every ledger built from a contract and reached by any history is fully accounted,
   passes its self-check, and never has an admissible waiter at the head of its queue.
   No operation on it can report an invariant violation.
   */
  lemma {:induction false} ReachableIsSound(l: Ledger, ops: seq<Op>)
    requires Inv(l)
    ensures Inv(Run(l, ops).1)
    ensures VerifyPasses(Run(l, ops).1)
    ensures Refused(InvariantViolation) !in Run(l, ops).0
    decreases |ops|
  {
    if ops == [] {
      FitsTransitive(l.inUse, l.capacity, ResourceVector(
                       U32_MAX, U32_MAX, U64_MAX, U64_MAX, U64_MAX, U32_MAX, U32_MAX,
                       U32_MAX, U32_MAX, U32_MAX, U32_MAX, U32_MAX, U64_MAX));
      CheckedSumAgrees(l.active, l.nextGrant);
    } else {
      StepKeeps(l, ops[0]);
      ReachableIsSound(Apply(l, ops[0]).1, ops[1..]);
    }
  }

  lemma ContractBuildsSoundLedger(contract: ResourceContract)
    requires WellTyped(contract)
    ensures FromContract(contract).Ok? <==>
              && contract.schemaId == RESOURCE_VECTOR_SCHEMA_ID
              && contract.version == RESOURCE_CONTRACT_VERSION
              && 0 < contract.maxActivePerOwner <= contract.maxActiveGrants
    ensures FromContract(contract).Ok? ==> Inv(FromContract(contract).value)
  {
    HeldNothing(1);
  }

  /** With nothing granted, nobody is waiting. */
  lemma IdleLedgerHasNoWaiters(l: Ledger)
    requires Inv(l) && l.active == map[]
    ensures l.waiters == [] && l.inUse == ZERO
  {
    HeldNothing(l.nextGrant);
    if l.waiters != [] {
      var w := l.waiters[0];
      assert WaiterOk(l, w);
      assert OwnerGrants(l.active, w.owner) == {};
      assert Plus(l.inUse, w.resources) == w.resources;
      AdmissibleMeansFits(l, w.resources);
      assert HeadAdmissible(l);
    }
  }

  // ---------------------------------------------------------------------------
  // First come, first served

  /** Waiter identities served by these grants, in issue order. */
  function Served(grants: seq<Grant>): seq<nat> {
    if grants == [] then []
    else (if grants[0].sourceWaiter.Some? then [grants[0].sourceWaiter.value] else []) + Served(grants[1..])
  }

  function ServedBy(reply: Reply): seq<nat> {
    match reply
    case Admitted(Granted(grant)) => Served([grant])
    case Dispatched(grants) => Served(grants)
    case _ => []
  }

  function ServedLog(replies: seq<Reply>): seq<nat> {
    if replies == [] then [] else ServedBy(replies[0]) + ServedLog(replies[1..])
  }

  /** Served identities strictly increase, and everyone still queued is later than all of them. */
  ghost predicate InArrivalOrder(log: seq<nat>, l: Ledger) {
    && (forall i, j :: 0 <= i < j < |log| ==> log[i] < log[j])
    && (forall i, k :: 0 <= i < |log| && 0 <= k < |l.waiters| ==> log[i] < l.waiters[k].id)
    && (forall i :: 0 <= i < |log| ==> log[i] < l.nextWaiter)
  }

  lemma {:induction false} ServedPrefix(waiters: seq<Waiter>, n: nat, grants: seq<Grant>)
    requires IssuedInOrder(waiters, n, grants)
    ensures |Served(grants)| == |grants|
    ensures forall i :: 0 <= i < |grants| ==> Served(grants)[i] == waiters[i].id
  {
    if grants != [] {
      forall i | 0 <= i < |grants| - 1
        ensures grants[1..][i] == Grant(n + 1 + i, waiters[1..][i].owner, waiters[1..][i].resources,
                                        Some(waiters[1..][i].id))
      {
        assert grants[1..][i] == grants[i + 1];
      }
      ServedPrefix(waiters[1..], n + 1, grants[1..]);
    }
  }

  lemma DispatchInOrder(l: Ledger, log: seq<nat>, grants: seq<Grant>, l': Ledger)
    requires QueueOk(l) && InArrivalOrder(log, l) && AdmittedPrefix(l, grants, l')
    ensures InArrivalOrder(log + Served(grants), l')
  {
    ServedPrefix(l.waiters, l.nextGrant, grants);
    var all := log + Served(grants);
    forall i | 0 <= i < |grants| ensures all[|log| + i] == l.waiters[i].id < l.nextWaiter {
      assert WaiterOk(l, l.waiters[i]);
    }
  }

  lemma AskInOrder(l: Ledger, log: seq<nat>, owner: nat, resources: ResourceVector)
    requires InArrivalOrder(log, l)
    ensures InArrivalOrder(log, Request(l, owner, resources).1)
  {
    var (r, l') := Request(l, owner, resources);
    if r.Ok? && r.value.Queued? {
      assert l'.waiters == l.waiters + [l'.waiters[|l.waiters|]];
    } else {
      assert l'.waiters == l.waiters && l'.nextWaiter == l.nextWaiter;
    }
  }

  lemma AskServesNobody(l: Ledger, owner: nat, resources: ResourceVector)
    ensures ServedBy(Apply(l, Ask(owner, resources)).0) == []
  {
    var r := Request(l, owner, resources).0;
    if r.Ok? && r.value.Granted? {
      var g := r.value.grant;
      assert g.sourceWaiter == None;
      assert [g][1..] == [];
      assert Served([g]) == [] + Served([g][1..]) == [];
    }
  }

  lemma RemovalInOrder(l: Ledger, log: seq<nat>, p: nat)
    requires InArrivalOrder(log, l) && p < |l.waiters| && l.waiters[p].variableBytes <= l.waiterBytes
    ensures InArrivalOrder(log, Withdrawn(l, p))
  {
    var l1 := Withdrawn(l, p);
    forall i, k | 0 <= i < |log| && 0 <= k < |l1.waiters| ensures log[i] < l1.waiters[k].id {
      assert l1.waiters[k] == l.waiters[if k < p then k else k + 1];
    }
  }

  lemma WithdrawInOrder(l: Ledger, log: seq<nat>, id: nat)
    requires Inv(l) && InArrivalOrder(log, l)
    requires CancelWaiter(l, id).0.Ok?
    ensures InArrivalOrder(log + Served(CancelWaiter(l, id).0.value), CancelWaiter(l, id).1)
  {
    CancelKeeps(l, id);
    var p := Position(l.waiters, id);
    WithdrawnKeeps(l, p);
    hide InArrivalOrder, Withdrawn, Drain, LimitsOk, ActiveOk, QueueOk;
    RemovalInOrder(l, log, p);
    DispatchInOrder(Withdrawn(l, p), log, CancelWaiter(l, id).0.value, CancelWaiter(l, id).1);
  }

  lemma GiveBackInOrder(l: Ledger, log: seq<nat>, id: nat, owner: nat)
    requires Inv(l) && InArrivalOrder(log, l)
    requires Release(l, id, owner).0.Ok?
    ensures InArrivalOrder(log + Served(Release(l, id, owner).0.value), Release(l, id, owner).1)
  {
    ReleaseKeeps(l, id, owner);
    FreedKeeps(l, id);
    DispatchInOrder(Freed(l, id), log, Release(l, id, owner).0.value, Release(l, id, owner).1);
  }

  lemma StepInOrder(l: Ledger, log: seq<nat>, op: Op)
    requires Inv(l) && InArrivalOrder(log, l)
    ensures InArrivalOrder(log + ServedBy(Apply(l, op).0), Apply(l, op).1)
  {
    hide Inv, InArrivalOrder, Request, CancelWaiter, Release;
    assert log + [] == log;
    match op
    case Ask(owner, resources) =>
      AskInOrder(l, log, owner, resources);
      AskServesNobody(l, owner, resources);
    case Withdraw(id) =>
      CancelKeeps(l, id);
      if CancelWaiter(l, id).0.Ok? { WithdrawInOrder(l, log, id); }
    case GiveBack(id, owner) =>
      ReleaseKeeps(l, id, owner);
      if Release(l, id, owner).0.Ok? { GiveBackInOrder(l, log, id, owner); }
  }

  /** A request is granted on the spot only when nobody is queued. */
  lemma DirectGrantOnlyWhenQueueEmpty(l: Ledger, owner: nat, resources: ResourceVector)
    requires Request(l, owner, resources).0.Ok?
    ensures Request(l, owner, resources).0.value.Granted? <==>
              l.waiters == [] && Admissible(l, owner, resources)
  {
  }

  lemma LogUnfolds(l: Ledger, ops: seq<Op>)
    requires ops != []
    ensures ServedLog(Run(l, ops).0) ==
            ServedBy(Apply(l, ops[0]).0) + ServedLog(Run(Apply(l, ops[0]).1, ops[1..]).0)
  {
    var (reply, l1) := Apply(l, ops[0]);
    var tail := Run(l1, ops[1..]).0;
    assert Run(l, ops).0 == [reply] + tail;
    assert ([reply] + tail)[1..] == tail;
  }

  /**
   No overtaking, over any history: queued requests are served in strictly increasing
   arrival order, and everyone still waiting arrived after everyone served.
   */
  lemma {:induction false} ServedInArrivalOrder(l: Ledger, log: seq<nat>, ops: seq<Op>)
    requires Inv(l) && InArrivalOrder(log, l)
    ensures InArrivalOrder(log + ServedLog(Run(l, ops).0), Run(l, ops).1)
    decreases |ops|
  {
    hide Inv, InArrivalOrder, Apply;
    if ops == [] {
      assert log + ServedLog(Run(l, ops).0) == log;
    } else {
      var (reply, l1) := Apply(l, ops[0]);
      StepKeeps(l, ops[0]);
      StepInOrder(l, log, ops[0]);
      ServedInArrivalOrder(l1, log + ServedBy(reply), ops[1..]);
      LogUnfolds(l, ops);
      var later := ServedLog(Run(l1, ops[1..]).0);
      assert log + (ServedBy(reply) + later) == log + ServedBy(reply) + later;
    }
  }

  // ---------------------------------------------------------------------------
  // No starvation

  predicate ServesWaiter(reply: Reply, id: nat) {
    reply.Dispatched? && exists i :: 0 <= i < |reply.grants| && reply.grants[i].sourceWaiter == Some(id)
  }

  /** Some reply hands the waiter its grant. */
  predicate ServedIn(replies: seq<Reply>, id: nat) {
    exists i :: 0 <= i < |replies| && ServesWaiter(replies[i], id)
  }

  /** The waiter is among the first `n` of the queue. */
  predicate StandsWithin(l: Ledger, id: nat, n: nat) {
    exists q :: 0 <= q < n && q < |l.waiters| && l.waiters[q].id == id
  }

  lemma WaitersHoldOnAsk(l: Ledger, owner: nat, resources: ResourceVector)
    requires l.waiters != []
    ensures var l' := Request(l, owner, resources).1;
            |l.waiters| <= |l'.waiters| && l'.waiters[..|l.waiters|] == l.waiters && l'.active == l.active
  {
  }

  lemma ServedOrMovesUp(l: Ledger, grants: seq<Grant>, l': Ledger, p: nat)
    requires p < |l.waiters| && AdmittedPrefix(l, grants, l')
    ensures p < |grants| ==> ServesWaiter(Dispatched(grants), l.waiters[p].id)
    ensures p >= |grants| ==> p - |grants| < |l'.waiters| && l'.waiters[p - |grants|] == l.waiters[p]
    ensures grants == [] ==> l'.active.Keys == l.active.Keys
  {
    if p < |grants| {
      assert Dispatched(grants).grants[p].sourceWaiter == Some(l.waiters[p].id);
    }
  }

  /**
   A waiter that is neither served nor cancelled never moves back, and as long as it does
   not move up nobody at all is granted anything.
   */
  lemma WaiterHolds(l: Ledger, op: Op, p: nat) returns (q: nat)
    requires Inv(l) && p < |l.waiters| && op != Withdraw(l.waiters[p].id)
    ensures q <= p
    ensures var (reply, l') := Apply(l, op);
            !ServesWaiter(reply, l.waiters[p].id) ==>
              && q < |l'.waiters| && l'.waiters[q] == l.waiters[p]
              && (q == p ==> l'.active.Keys <= l.active.Keys)
  {
    var (reply, l') := Apply(l, op);
    q := p;
    hide Inv, Drain, Request, AdmittedPrefix, ServesWaiter;
    match op {
      case Ask(owner, resources) =>
        WaitersHoldOnAsk(l, owner, resources);
        assert l'.waiters[..|l.waiters|][p] == l.waiters[p];
      case Withdraw(id) =>
        CancelKeeps(l, id);
        if reply.Dispatched? {
          var gone := Position(l.waiters, id);
          var stands := if p < gone then p else p - 1;
          assert Withdrawn(l, gone).waiters[stands] == l.waiters[p];
          ServedOrMovesUp(Withdrawn(l, gone), reply.grants, l', stands);
          q := if stands < |reply.grants| then 0 else stands - |reply.grants|;
        }
      case GiveBack(id, owner) =>
        ReleaseKeeps(l, id, owner);
        if reply.Dispatched? {
          ServedOrMovesUp(Freed(l, id), reply.grants, l', p);
          q := if p < |reply.grants| then 0 else p - |reply.grants|;
        }
    }
  }

  /**
   Over any history that does not cancel it, a waiter is served or does not fall back; and
   if meanwhile every grant held at the start is given back, it is served or moves up.
   */
  lemma {:induction false} WaiterMovesUp(l: Ledger, ops: seq<Op>, p: nat, held: set<nat>)
    requires Inv(l) && p < |l.waiters| && Withdraw(l.waiters[p].id) !in ops
    ensures var (replies, end) := Run(l, ops);
            var id := l.waiters[p].id;
            && (ServedIn(replies, id) || StandsWithin(end, id, p + 1))
            && (l.active.Keys <= held && held !! end.active.Keys ==>
                  ServedIn(replies, id) || StandsWithin(end, id, p))
    decreases |ops|
  {
    var id := l.waiters[p].id;
    if ops == [] {
      if l.active.Keys <= held && held !! l.active.Keys {
        assert l.active.Keys == {};
        NothingHeldMeansNoWaiters(l);
        assert false;
      }
    } else {
      hide Inv, Apply, ServesWaiter;
      var (reply, l1) := Apply(l, ops[0]);
      var q := WaiterHolds(l, ops[0], p);
      StepKeeps(l, ops[0]);
      var replies := Run(l, ops).0;
      if ServesWaiter(reply, id) {
        assert ServesWaiter(replies[0], id);
      } else {
        WaiterMovesUp(l1, ops[1..], q, held);
        if ServedIn(Run(l1, ops[1..]).0, id) {
          var i :| 0 <= i < |ops| - 1 && ServesWaiter(Run(l1, ops[1..]).0[i], id);
          assert replies[i + 1] == Run(l1, ops[1..]).0[i];
        }
      }
    }
  }

  lemma NothingHeldMeansNoWaiters(l: Ledger)
    requires Inv(l) && l.active.Keys == {}
    ensures l.waiters == []
  {
    assert l.active == map[];
    IdleLedgerHasNoWaiters(l);
  }

  /**
   No starvation. Take any ledger with a waiter at the head of its queue and any further
   history that does not cancel that waiter. If every grant active at the start has been
   given back by the end, in whatever order and whatever else was requested, cancelled or
   refused meanwhile, then the waiter has been served.
   */
  lemma HeadIsServed(l: Ledger, ops: seq<Op>)
    requires Inv(l) && l.waiters != []
    requires Withdraw(l.waiters[0].id) !in ops
    requires l.active.Keys !! Run(l, ops).1.active.Keys
    ensures ServedIn(Run(l, ops).0, l.waiters[0].id)
  {
    WaiterMovesUp(l, ops, 0, l.active.Keys);
  }

  /** In each round every grant held at its start is given back by its end. */
  predicate TurnsOver(l: Ledger, rounds: seq<seq<Op>>)
    decreases |rounds|
  {
    rounds == [] ||
    (l.active.Keys !! Run(l, rounds[0]).1.active.Keys && TurnsOver(Run(l, rounds[0]).1, rounds[1..]))
  }

  /** The replies of one round after another. */
  function RepliesOf(l: Ledger, rounds: seq<seq<Op>>): seq<Reply>
    decreases |rounds|
  {
    if rounds == [] then []
    else Run(l, rounds[0]).0 + RepliesOf(Run(l, rounds[0]).1, rounds[1..])
  }

  /**
   No starvation anywhere in the queue: a waiter with `p` others before it has been served
   after `p + 1` such rounds, whatever else happens in them, unless it is cancelled.
   */
  lemma {:induction false} EveryWaiterIsServed(l: Ledger, rounds: seq<seq<Op>>, p: nat)
    requires Inv(l) && p < |l.waiters| && p < |rounds| && TurnsOver(l, rounds)
    requires forall i :: 0 <= i < |rounds| ==> Withdraw(l.waiters[p].id) !in rounds[i]
    ensures ServedIn(RepliesOf(l, rounds), l.waiters[p].id)
    decreases |rounds|
  {
    var id := l.waiters[p].id;
    var (replies, l1) := Run(l, rounds[0]);
    hide Inv, Run, ServesWaiter;
    WaiterMovesUp(l, rounds[0], p, l.active.Keys);
    ReachableIsSound(l, rounds[0]);
    if ServedIn(replies, id) {
      var i :| 0 <= i < |replies| && ServesWaiter(replies[i], id);
      assert RepliesOf(l, rounds)[i] == replies[i];
    } else {
      var q :| 0 <= q < p && q < |l1.waiters| && l1.waiters[q].id == id;
      EveryWaiterIsServed(l1, rounds[1..], q);
      var later := RepliesOf(l1, rounds[1..]);
      var i :| 0 <= i < |later| && ServesWaiter(later[i], id);
      assert RepliesOf(l, rounds)[|replies| + i] == later[i];
    }
  }

  // ---------------------------------------------------------------------------
  // Released exactly once

  /** Releasing a request granted on the spot undoes it, apart from the used-up number. */
  lemma ReleaseUndoesGrant(l: Ledger, owner: nat, resources: ResourceVector)
    requires Inv(l)
    ensures var (r, l1) := Request(l, owner, resources);
            r.Ok? && r.value.Granted? ==>
              Release(l1, r.value.grant.id, owner) == (Ok([]), l.(nextGrant := l.nextGrant + 1))
  {
    hide Plus, FitsWithin, Inv, Accounted, CanGrant, OwnerGrants, Drain, Enqueue;
    var (r, l1) := Request(l, owner, resources);
    if r.Ok? && r.value.Granted? {
      DirectGrantOnlyWhenQueueEmpty(l, owner, resources);
      NextGrantIsNew(l);
      assert l1.active - {l.nextGrant} == l.active;
      IssueIsUndone(l.inUse, resources);
      NothingToDrain(Freed(l1, l.nextGrant));
    }
  }

  lemma NextGrantIsNew(l: Ledger)
    requires Inv(l)
    ensures l.nextGrant !in l.active
  {
  }

  lemma NothingToDrain(l: Ledger)
    requires l.waiters == []
    ensures Drain(l) == (Ok([]), l)
  {
  }

  lemma IssueIsUndone(a: ResourceVector, b: ResourceVector)
    ensures CheckedSub(Plus(a, b), b) == Some(a)
  {
    PlusGrows(a, b);
    PlusCancels(Minus(Plus(a, b), b), a, b);
  }

  /** A number that has been used and is no longer active never becomes active again. */
  lemma GoneStaysGone(l: Ledger, op: Op, id: nat)
    requires Inv(l) && 0 < id < l.nextGrant && id !in l.active
    ensures id !in Apply(l, op).1.active && id < Apply(l, op).1.nextGrant
    ensures op.GiveBack? && op.grantId == id ==> Apply(l, op).0 == Refused(GrantAlreadyReleased(id))
  {
    hide Inv, Drain;
    match op
    case Ask(owner, resources) => RequestKeeps(l, owner, resources);
    case Withdraw(waiter) => CancelKeeps(l, waiter);
    case GiveBack(other, owner) => ReleaseKeeps(l, other, owner);
  }

  lemma {:induction false} GoneForGood(l: Ledger, ops: seq<Op>, id: nat, j: nat)
    requires Inv(l) && 0 < id < l.nextGrant && id !in l.active
    requires j < |ops| && ops[j].GiveBack? && ops[j].grantId == id
    ensures Run(l, ops).0[j] == Refused(GrantAlreadyReleased(id))
    decreases |ops|
  {
    hide Inv, Apply;
    GoneStaysGone(l, ops[0], id);
    if j > 0 {
      StepKeeps(l, ops[0]);
      GoneForGood(Apply(l, ops[0]).1, ops[1..], id, j - 1);
    }
  }

  lemma GivingBackRemoves(l: Ledger, id: nat, owner: nat)
    requires Inv(l) && Apply(l, GiveBack(id, owner)).0.Dispatched?
    ensures var l' := Apply(l, GiveBack(id, owner)).1; id !in l'.active && 0 < id < l'.nextGrant
  {
    ReleaseKeeps(l, id, owner);
    assert id in l.active && 0 < id < l.nextGrant;
    hide Drain;
  }

  /**
   Release happens exactly once: over any history, once a release of a grant has been
   accepted, every later attempt to release that grant, by whatever owner, is refused as
   already released.
   */
  lemma {:induction false} ReleasedOnlyOnce(l: Ledger, ops: seq<Op>, i: nat, j: nat)
    requires Inv(l) && i < j < |ops| && ops[i].GiveBack? && ops[j].GiveBack? && ops[i].grantId == ops[j].grantId
    requires Run(l, ops).0[i].Dispatched?
    ensures Run(l, ops).0[j] == Refused(GrantAlreadyReleased(ops[i].grantId))
    decreases |ops|
  {
    hide Inv, Apply;
    StepKeeps(l, ops[0]);
    var l1 := Apply(l, ops[0]).1;
    if i == 0 {
      GivingBackRemoves(l, ops[0].grantId, ops[0].owner);
      GoneForGood(l1, ops[1..], ops[i].grantId, j - 1);
    } else {
      ReleasedOnlyOnce(l1, ops[1..], i - 1, j - 1);
    }
  }
}
