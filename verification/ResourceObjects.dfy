/**
 The ledger and its owned broker as mutable objects. Every method is proved to produce
 exactly the result and the next state that the ledger functions prescribe.
 */
module ResourceObjects {
  import opened Wrappers
  import opened ResourceVectors
  import Spec = ResourceLedgers
  import Brokers = ResourceBrokers
  import opened ResourceHistories

  type Grant = Spec.Grant
  type Waiter = Spec.Waiter
  type LedgerError = Spec.LedgerError

  /** Prepends grants already issued to the outcome of draining the rest. */
  ghost function After(issued: seq<Grant>, rest: (Result<seq<Grant>, LedgerError>, Spec.Ledger))
    : (Result<seq<Grant>, LedgerError>, Spec.Ledger)
  {
    match rest.0
    case Ok(grants) => (Ok(issued + grants), rest.1)
    case Err(error) => (Err(error), rest.1)
  }

  lemma AfterNothing(rest: (Result<seq<Grant>, LedgerError>, Spec.Ledger))
    ensures After([], rest) == rest
  {
    assert rest.0.Ok? ==> [] + rest.0.value == rest.0.value;
  }

  lemma AfterEnd(issued: seq<Grant>, l: Spec.Ledger)
    ensures After(issued, (Ok([]), l)) == (Ok(issued), l)
  {
    assert issued + [] == issued;
  }

  lemma AfterError(issued: seq<Grant>, error: LedgerError, l: Spec.Ledger)
    ensures After(issued, (Err(error), l)) == (Err(error), l)
  {
  }

  lemma AfterOneMore(issued: seq<Grant>, grant: Grant, rest: (Result<seq<Grant>, LedgerError>, Spec.Ledger))
    ensures After(issued, After([grant], rest)) == After(issued + [grant], rest)
  {
    assert rest.0.Ok? ==> issued + ([grant] + rest.0.value) == issued + [grant] + rest.0.value;
  }

  /** One round of draining. */
  lemma DrainUnfolds(l: Spec.Ledger)
    ensures !Spec.HeadAdmissible(l) ==> Spec.Drain(l) == (Ok([]), l)
    ensures Spec.HeadAdmissible(l) && l.waiterBytes < l.waiters[0].variableBytes ==>
              Spec.Drain(l) == (Err(Spec.InvariantViolation), l.(waiters := l.waiters[1..]))
    ensures Spec.HeadAdmissible(l) && l.waiterBytes >= l.waiters[0].variableBytes ==>
              var head := l.waiters[0];
              var (issued, l') := Spec.Issue(Spec.PopHead(l), head.owner, head.resources, Some(head.id));
              && (issued.Err? ==> Spec.Drain(l) == (Err(issued.error), l'))
              && (issued.Ok? ==> Spec.Drain(l) == After([issued.value], Spec.Drain(l')))
  {
  }

  class ResourceLedger {
    const capacity: ResourceVector
    const maxActiveGrants: nat
    const maxActivePerOwner: nat
    const maxWaiters: nat
    const maxWaiterBytes: nat
    var inUse: ResourceVector
    var active: map<nat, Grant>
    var waiters: seq<Waiter>
    var waiterBytes: nat
    var nextGrant: nat
    var nextWaiter: nat

    ghost function Model(): Spec.Ledger
      reads this
    {
      Spec.Ledger(capacity, inUse, active, waiters, maxActiveGrants, maxActivePerOwner, maxWaiters, maxWaiterBytes,
                  waiterBytes, nextGrant, nextWaiter)
    }

    constructor (contract: ResourceContract)
      requires Spec.FromContract(contract).Ok?
      ensures Model() == Spec.FromContract(contract).value
    {
      capacity := contract.capacity;
      maxActiveGrants := contract.maxActiveGrants;
      maxActivePerOwner := contract.maxActivePerOwner;
      maxWaiters := contract.maxWaiterItems;
      maxWaiterBytes := contract.maxWaiterDeclaredVariableBytes;
      inUse := ZERO;
      active, waiters, waiterBytes := map[], [], 0;
      nextGrant, nextWaiter := 1, 1;
    }

    constructor Clone(other: ResourceLedger)
      ensures Model() == other.Model()
    {
      capacity := other.capacity;
      maxActiveGrants := other.maxActiveGrants;
      maxActivePerOwner := other.maxActivePerOwner;
      maxWaiters := other.maxWaiters;
      maxWaiterBytes := other.maxWaiterBytes;
      inUse, active := other.inUse, other.active;
      waiters, waiterBytes := other.waiters, other.waiterBytes;
      nextGrant, nextWaiter := other.nextGrant, other.nextWaiter;
    }

    static method FromContract(contract: ResourceContract) returns (r: Result<ResourceLedger, LedgerError>)
      ensures r.Ok? <==> Spec.FromContract(contract).Ok?
      ensures r.Ok? ==> fresh(r.value) && r.value.Model() == Spec.FromContract(contract).value
      ensures r.Err? ==> r.error == Spec.InvalidConfiguration
    {
      if ValidateContract(contract).Err? {
        return Err(Spec.InvalidConfiguration);
      }
      var ledger := new ResourceLedger(contract);
      r := Ok(ledger);
    }

    method Replace(candidate: ResourceLedger)
      requires Spec.SameLimits(Model(), candidate.Model())
      modifies this
      ensures Model() == candidate.Model()
    {
      inUse, active := candidate.inUse, candidate.active;
      waiters, waiterBytes := candidate.waiters, candidate.waiterBytes;
      nextGrant, nextWaiter := candidate.nextGrant, candidate.nextWaiter;
    }

    method CanGrant(resources: ResourceVector) returns (ok: bool)
      ensures ok == Spec.CanGrant(Model(), resources)
    {
      var combined := CheckedAdd(inUse, resources);
      if combined.None? {
        return false;
      }
      ok := FitsWithin(combined.value, capacity);
    }

    method Issue(owner: nat, resources: ResourceVector, source: Option<nat>) returns (r: Result<Grant, LedgerError>)
      modifies this
      ensures (r, Model()) == Spec.Issue(old(Model()), owner, resources, source)
      ensures waiters == old(waiters)
    {
      hide Plus, FitsWithin;
      var combined := CheckedAdd(inUse, resources);
      if combined.None? {
        return Err(Spec.ArithmeticOverflow);
      }
      if !FitsWithin(combined.value, capacity) {
        return Err(Spec.RequestExceedsCapacity);
      }
      if nextGrant >= U64_MAX {
        return Err(Spec.IdExhausted);
      }
      var grant := Spec.Grant(nextGrant, owner, resources, source);
      nextGrant := nextGrant + 1;
      active := active[grant.id := grant];
      inUse := combined.value;
      r := Ok(grant);
    }

    method Request(owner: nat, resources: ResourceVector) returns (r: Result<Spec.Admission, LedgerError>)
      modifies this
      ensures (r, Model()) == Spec.Request(old(Model()), owner, resources)
    {
      if !FitsWithin(resources, capacity) {
        return Err(Spec.RequestExceedsCapacity);
      }
      var fits := CanGrant(resources);
      if waiters == [] && |active| < maxActiveGrants && |Spec.OwnerGrants(active, owner)| < maxActivePerOwner && fits {
        var issued := Issue(owner, resources, None);
        match issued
        case Ok(grant) => return Ok(Spec.Granted(grant));
        case Err(error) => return Err(error);
      }
      if |waiters| >= maxWaiters {
        return Err(Spec.QueueItemLimit);
      }
      var bytes := DeclaredVariableBytes(resources);
      if bytes.None? || waiterBytes + bytes.value > U64_MAX {
        return Err(Spec.ArithmeticOverflow);
      }
      if waiterBytes + bytes.value > maxWaiterBytes {
        return Err(Spec.QueueByteLimit);
      }
      if nextWaiter >= U64_MAX {
        return Err(Spec.IdExhausted);
      }
      var id := nextWaiter;
      nextWaiter := nextWaiter + 1;
      waiters := waiters + [Spec.Waiter(id, owner, resources, bytes.value)];
      waiterBytes := waiterBytes + bytes.value;
      r := Ok(Spec.Queued(id));
    }

    method DrainWaiters() returns (r: Result<seq<Grant>, LedgerError>)
      modifies this
      ensures (r, Model()) == Spec.Drain(old(Model()))
    {
      var issued: seq<Grant> := [];
      ghost var whole := Spec.Drain(Model());
      AfterNothing(whole);
      hide Plus, FitsWithin, Spec.Issue, Spec.OwnerGrants, Spec.CanGrant, Spec.Drain, After;
      while |active| < maxActiveGrants
        invariant whole == After(issued, Spec.Drain(Model()))
        decreases |waiters|
      {
        DrainUnfolds(Model());
        AfterEnd(issued, Model());
        if waiters == [] {
          break;
        }
        var waiter := waiters[0];
        var fits := CanGrant(waiter.resources);
        if |Spec.OwnerGrants(active, waiter.owner)| >= maxActivePerOwner || !fits {
          break;
        }
        waiters := waiters[1..];
        if waiterBytes < waiter.variableBytes {
          AfterError(issued, Spec.InvariantViolation, Model());
          return Err(Spec.InvariantViolation);
        }
        waiterBytes := waiterBytes - waiter.variableBytes;
        var grant := Issue(waiter.owner, waiter.resources, Some(waiter.id));
        if grant.Err? {
          AfterError(issued, grant.error, Model());
          return Err(grant.error);
        }
        AfterOneMore(issued, grant.value, Spec.Drain(Model()));
        issued := issued + [grant.value];
      }
      DrainUnfolds(Model());
      AfterEnd(issued, Model());
      r := Ok(issued);
    }

    method CancelWaiterChecked(id: nat) returns (r: Result<seq<Grant>, LedgerError>)
      modifies this
      ensures (r, Model()) == Spec.CancelChecked(old(Model()), id)
    {
      var position := 0;
      while position < |waiters| && waiters[position].id != id
        invariant position <= |waiters|
        invariant forall i :: 0 <= i < position ==> waiters[i].id != id
      {
        position := position + 1;
      }
      if position == |waiters| {
        return Err(Spec.UnknownWaiter(id));
      }
      var waiter := waiters[position];
      assert position == Spec.Position(waiters, id);
      waiters := waiters[..position] + waiters[position + 1..];
      if waiterBytes < waiter.variableBytes {
        return Err(Spec.InvariantViolation);
      }
      waiterBytes := waiterBytes - waiter.variableBytes;
      r := DrainWaiters();
    }

    method CancelWaiter(id: nat) returns (r: Result<seq<Grant>, LedgerError>)
      modifies this
      ensures (r, Model()) == Spec.CancelWaiter(old(Model()), id)
    {
      var candidate := new ResourceLedger.Clone(this);
      r := candidate.CancelWaiterChecked(id);
      if r.Ok? {
        Replace(candidate);
      }
    }

    method ReleaseChecked(id: nat, owner: nat) returns (r: Result<seq<Grant>, LedgerError>)
      modifies this
      ensures (r, Model()) == Spec.ReleaseChecked(old(Model()), id, owner)
    {
      if id !in active {
        if 0 < id < nextGrant {
          return Err(Spec.GrantAlreadyReleased(id));
        }
        return Err(Spec.UnknownGrant(id));
      }
      var grant := active[id];
      if grant.owner != owner {
        return Err(Spec.GrantOwnerMismatch(grant.owner, owner));
      }
      var remaining := CheckedSub(inUse, grant.resources);
      if remaining.None? {
        return Err(Spec.InvariantViolation);
      }
      inUse := remaining.value;
      active := active - {id};
      r := DrainWaiters();
    }

    method Release(id: nat, owner: nat) returns (r: Result<seq<Grant>, LedgerError>)
      modifies this
      ensures (r, Model()) == Spec.Release(old(Model()), id, owner)
    {
      var candidate := new ResourceLedger.Clone(this);
      r := candidate.ReleaseChecked(id, owner);
      if r.Ok? {
        Replace(candidate);
      }
    }

    /** The self-check recomputes every sum and bound from the exact active identities. */
    method Verify() returns (ok: bool)
      ensures ok <==> VerifyPasses(Model())
    {
      var sum := Some(ZERO);
      for id := 0 to nextGrant
        invariant sum == CheckedHeldBelow(active, id)
      {
        if sum.Some? && id in active {
          sum := CheckedAdd(sum.value, active[id].resources);
        }
      }
      var bytes := 0;
      for i := |waiters| downto 0
        invariant bytes == Spec.QueuedBytes(waiters[i..])
      {
        assert waiters[i..][1..] == waiters[i + 1..];
        bytes := bytes + waiters[i].variableBytes;
      }
      assert waiters[0..] == waiters;
      ok :=
        && sum == Some(inUse)
        && FitsWithin(inUse, capacity)
        && bytes == waiterBytes && waiterBytes <= U64_MAX
        && |active| <= maxActiveGrants
        && (forall id | id in active :: |Spec.OwnerGrants(active, active[id].owner)| <= maxActivePerOwner)
        && |waiters| <= maxWaiters
        && waiterBytes <= maxWaiterBytes;
    }
  }

  lemma {:induction false} ServedAppend(grants: seq<Grant>, g: Grant)
    requires g.sourceWaiter.Some?
    ensures Served(grants + [g]) == Served(grants) + [g.sourceWaiter.value]
  {
    if grants == [] {
      assert ([g] + [])[1..] == [];
      assert [] + [g] == [g];
    } else {
      ServedAppend(grants[1..], g);
      assert (grants + [g])[1..] == grants[1..] + [g];
    }
  }

  /** The ledger plus the grants that wait for their handle to collect them. */
  class OwnedResourceState {
    const ledger: ResourceLedger
    var ready: map<nat, Grant>

    ghost function Model(): Brokers.Broker
      reads this, ledger
    {
      Brokers.Broker(ledger.Model(), ready)
    }

    constructor (ledger: ResourceLedger)
      ensures this.ledger == ledger && ready == map[]
    {
      this.ledger := ledger;
      ready := map[];
    }

    method RecordIssued(issued: seq<Grant>) returns (r: Result<seq<nat>, LedgerError>)
      modifies this
      ensures Brokers.Recordable(old(ready), issued) ==>
                r == Ok(Served(issued)) && ready == Brokers.Recorded(old(ready), issued)
      ensures !Brokers.Recordable(old(ready), issued) ==> r == Err(Spec.InvariantViolation) && ready == old(ready)
    {
      var readyIds: seq<nat> := [];
      var seen: set<nat> := {};
      for i := 0 to |issued|
        invariant ready == old(ready)
        invariant Brokers.Recordable(ready, issued[..i])
        invariant readyIds == Served(issued[..i])
        invariant forall w :: w in seen <==> exists j :: 0 <= j < i && issued[j].sourceWaiter == Some(w)
      {
        var grant := issued[i];
        if grant.sourceWaiter.None? || grant.sourceWaiter.value in ready || grant.sourceWaiter.value in seen {
          return Err(Spec.InvariantViolation);
        }
        assert issued[..i + 1] == issued[..i] + [grant];
        ServedAppend(issued[..i], grant);
        seen := seen + {grant.sourceWaiter.value};
        readyIds := readyIds + [grant.sourceWaiter.value];
      }
      assert issued[..|issued|] == issued;
      for i := 0 to |issued|
        invariant ready == Brokers.Recorded(old(ready), issued[..i])
      {
        assert issued[..i + 1][..i] == issued[..i];
        ready := ready[issued[i].sourceWaiter.value := issued[i]];
      }
      r := Ok(readyIds);
    }

    method ReleaseGrant(grantId: nat, owner: nat) returns (r: Result<seq<nat>, LedgerError>)
      modifies this, ledger
      ensures (r, Model()) == Brokers.ReleaseGrant(old(Model()), grantId, owner)
    {
      var candidate := new ResourceLedger.Clone(ledger);
      var issued := candidate.Release(grantId, owner);
      if issued.Err? {
        return Err(issued.error);
      }
      r := RecordIssued(issued.value);
      if r.Ok? {
        ledger.Replace(candidate);
      }
    }

    method CancelWaiter(waiterId: nat) returns (r: Result<seq<nat>, LedgerError>)
      modifies this, ledger
      ensures (r, Model()) == Brokers.CancelHandle(old(Model()), waiterId)
    {
      var candidate := new ResourceLedger.Clone(ledger);
      var before := ready;
      var issued;
      if waiterId in ready {
        issued := candidate.Release(ready[waiterId].id, ready[waiterId].owner);
        if issued.Err? {
          return Err(issued.error);
        }
        ready := ready - {waiterId};
      } else {
        issued := candidate.CancelWaiter(waiterId);
        if issued.Err? {
          return Err(issued.error);
        }
      }
      r := RecordIssued(issued.value);
      if r.Ok? {
        ledger.Replace(candidate);
      } else {
        ready := before;
      }
    }
  }

  datatype OwnedAdmission = LeaseHandle(grant: Grant) | WaiterHandle(waiterId: nat)

  /**
   The public boundary. `leases` and `handles` record which handles are live: a handle is
   created once by an admission and given up once, by an explicit call or by being dropped.
   Handles do not keep the broker alive: once its last holder is gone they only report so.
   */
  class OwnedResourceBroker {
    const state: OwnedResourceState
    var holders: nat
    ghost var leases: map<nat, Grant>
    ghost var handles: set<nat>

    ghost function World(): Brokers.World
      reads this, state, state.ledger
    {
      Brokers.World(state.Model(), leases, handles)
    }

    constructor (ledger: ResourceLedger)
      ensures World() == Brokers.FreshWorld(ledger.Model()) && holders == 1
      ensures state.ledger == ledger && fresh(state)
    {
      state := new OwnedResourceState(ledger);
      holders := 1;
      leases, handles := map[], {};
    }

    /** Cloning the broker clones only the handle on it. */
    method CloneBroker()
      requires holders > 0
      modifies this`holders
      ensures holders == old(holders) + 1
    {
      holders := holders + 1;
    }

    method DropBroker()
      requires holders > 0
      modifies this`holders
      ensures holders == old(holders) - 1
    {
      holders := holders - 1;
    }

    method Request(owner: nat, resources: ResourceVector) returns (r: Result<OwnedAdmission, LedgerError>)
      requires holders > 0
      modifies this`leases, this`handles, state.ledger
      ensures World() == Brokers.AskStep(old(World()), owner, resources)
      ensures r.Err? ==> leases == old(leases) && handles == old(handles)
      ensures r.Err? ==> Some(r.error) == Brokers.Reported(old(World()), Brokers.Demand(owner, resources))
      ensures r.Ok? && r.value.LeaseHandle? ==> leases == old(leases)[r.value.grant.id := r.value.grant]
      ensures r.Ok? && r.value.WaiterHandle? ==> handles == old(handles) + {r.value.waiterId}
    {
      var admission := state.ledger.Request(owner, resources);
      match admission
      case Ok(Granted(grant)) =>
        leases := leases[grant.id := grant];
        r := Ok(LeaseHandle(grant));
      case Ok(Queued(id)) =>
        handles := handles + {id};
        r := Ok(WaiterHandle(id));
      case Err(error) =>
        r := Err(error);
    }

    /** Explicit release; a refused release drops the still armed handle, which tries once more. */
    method ReleaseLease(grant: Grant) returns (r: Result<seq<nat>, LedgerError>)
      requires grant.id in leases && leases[grant.id] == grant
      modifies this`leases, state, state.ledger
      ensures holders > 0 ==>
                && r == Brokers.ReleaseGrant(old(World()).broker, grant.id, grant.owner).0
                && World() == Brokers.GiveUpLeaseStep(old(World()), grant.id)
      ensures holders == 0 ==>
                r == Err(Spec.BrokerDropped) && World() == old(World()).(leases := old(leases) - {grant.id})
    {
      if holders == 0 {
        leases := leases - {grant.id};
        return Err(Spec.BrokerDropped);
      }
      r := state.ReleaseGrant(grant.id, grant.owner);
      if r.Err? {
        var again := state.ReleaseGrant(grant.id, grant.owner);
      }
      leases := leases - {grant.id};
    }

    /** Dropping a lease releases it while the broker lives; the outcome is discarded. */
    method DropLease(grant: Grant)
      requires grant.id in leases && leases[grant.id] == grant
      modifies this`leases, state, state.ledger
      ensures holders > 0 ==> World() == Brokers.GiveUpLeaseStep(old(World()), grant.id)
      ensures holders == 0 ==> World() == old(World()).(leases := old(leases) - {grant.id})
    {
      if holders > 0 {
        var discarded := state.ReleaseGrant(grant.id, grant.owner);
      }
      leases := leases - {grant.id};
    }

    method TryAcquire(waiterId: nat, armed: bool) returns (r: Result<Option<Grant>, LedgerError>)
      requires armed <==> waiterId in handles
      modifies this`leases, this`handles, state`ready
      ensures !armed ==> r == Err(Spec.WaiterAlreadyResolved(waiterId)) && World() == old(World())
      ensures armed && holders == 0 ==>
                r == Err(Spec.BrokerDropped) && World() == old(World()).(waiters := old(handles) - {waiterId})
      ensures armed && holders > 0 ==>
                && r == Ok(if waiterId in old(state.ready) then Some(old(state.ready)[waiterId]) else None)
                && World() == Brokers.TryAcquireStep(old(World()), waiterId)
    {
      if !armed {
        return Err(Spec.WaiterAlreadyResolved(waiterId));
      }
      if holders == 0 {
        handles := handles - {waiterId};
        return Err(Spec.BrokerDropped);
      }
      if waiterId !in state.ready {
        return Ok(None);
      }
      var grant := state.ready[waiterId];
      state.ready := state.ready - {waiterId};
      handles := handles - {waiterId};
      leases := leases[grant.id := grant];
      r := Ok(Some(grant));
    }

    /** Cancel; a refused cancel drops the handle, which tries once more only while still armed. */
    method CancelWaiter(waiterId: nat, armed: bool) returns (r: Result<seq<nat>, LedgerError>)
      requires armed <==> waiterId in handles
      modifies this`handles, state, state.ledger
      ensures holders > 0 ==>
                && r == Brokers.CancelHandle(old(World()).broker, waiterId).0
                && World() == Brokers.GiveUpWaiterStep(old(World()), waiterId)
      ensures holders == 0 ==>
                r == Err(Spec.BrokerDropped) && World() == old(World()).(waiters := old(handles) - {waiterId})
    {
      if holders == 0 {
        handles := handles - {waiterId};
        return Err(Spec.BrokerDropped);
      }
      r := state.CancelWaiter(waiterId);
      if r.Err? && armed {
        var again := state.CancelWaiter(waiterId);
      }
      handles := handles - {waiterId};
    }

    /** Dropping a waiter handle cancels it while it is armed and the broker lives. */
    method DropWaiter(waiterId: nat, armed: bool)
      requires armed <==> waiterId in handles
      modifies this`handles, state, state.ledger
      ensures !armed ==> World() == old(World())
      ensures armed && holders > 0 ==> World() == Brokers.GiveUpWaiterStep(old(World()), waiterId)
      ensures armed && holders == 0 ==> World() == old(World()).(waiters := old(handles) - {waiterId})
    {
      if !armed {
        return;
      }
      if holders > 0 {
        var discarded := state.CancelWaiter(waiterId);
      }
      handles := handles - {waiterId};
    }
  }
}
