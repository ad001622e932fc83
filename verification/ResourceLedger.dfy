/**
 The bounded FIFO resource ledger: what each operation does to the ledger value, the
 invariant every operation keeps, and what holds over whole histories.
 */
module ResourceLedgers {
  import opened Wrappers
  import opened ResourceVectors

  datatype Grant = Grant(id: nat, owner: nat, resources: ResourceVector, sourceWaiter: Option<nat>)

  datatype Waiter = Waiter(id: nat, owner: nat, resources: ResourceVector, variableBytes: nat)

  datatype LedgerError =
    | InvalidConfiguration
    | RequestExceedsCapacity
    | QueueItemLimit
    | QueueByteLimit
    | ArithmeticOverflow
    | IdExhausted
    | UnknownGrant(grantId: nat)
    | GrantAlreadyReleased(grantId: nat)
    | GrantOwnerMismatch(expected: nat, actual: nat)
    | UnknownWaiter(waiterId: nat)
    | WaiterAlreadyResolved(waiterId: nat)
    | BrokerDropped
    | InvariantViolation

  datatype Admission = Granted(grant: Grant) | Queued(waiterId: nat)

  datatype Ledger = Ledger(
    capacity: ResourceVector,
    inUse: ResourceVector,
    active: map<nat, Grant>,
    waiters: seq<Waiter>,
    maxActiveGrants: nat,
    maxActivePerOwner: nat,
    maxWaiters: nat,
    maxWaiterBytes: nat,
    waiterBytes: nat,
    nextGrant: nat,
    nextWaiter: nat)

  // ---------------------------------------------------------------------------
  // Operations

  function FromContract(contract: ResourceContract): Result<Ledger, LedgerError> {
    if ValidateContract(contract).Err? then Err(InvalidConfiguration)
    else Ok(Ledger(contract.capacity, ZERO, map[], [], contract.maxActiveGrants, contract.maxActivePerOwner,
                   contract.maxWaiterItems, contract.maxWaiterDeclaredVariableBytes, 0, 1, 1))
  }

  function OwnerGrants(active: map<nat, Grant>, owner: nat): set<nat> {
    set id | id in active && active[id].owner == owner
  }

  predicate CanGrant(l: Ledger, resources: ResourceVector) {
    var combined := CheckedAdd(l.inUse, resources);
    combined.Some? && FitsWithin(combined.value, l.capacity)
  }

  /** The three reasons a request may have to wait, all absent. */
  predicate Admissible(l: Ledger, owner: nat, resources: ResourceVector) {
    && |l.active| < l.maxActiveGrants
    && |OwnerGrants(l.active, owner)| < l.maxActivePerOwner
    && CanGrant(l, resources)
  }

  function Issue(l: Ledger, owner: nat, resources: ResourceVector, source: Option<nat>)
    : (Result<Grant, LedgerError>, Ledger)
  {
    var combined := CheckedAdd(l.inUse, resources);
    if combined.None? then (Err(ArithmeticOverflow), l)
    else if !FitsWithin(combined.value, l.capacity) then (Err(RequestExceedsCapacity), l)
    else if l.nextGrant >= U64_MAX then (Err(IdExhausted), l)
    else
      var grant := Grant(l.nextGrant, owner, resources, source);
      (Ok(grant), l.(nextGrant := l.nextGrant + 1, active := l.active[l.nextGrant := grant], inUse := combined.value))
  }

  function Enqueue(l: Ledger, owner: nat, resources: ResourceVector): (Result<Admission, LedgerError>, Ledger) {
    var bytes := DeclaredVariableBytes(resources);
    if |l.waiters| >= l.maxWaiters then (Err(QueueItemLimit), l)
    else if bytes.None? || l.waiterBytes + bytes.value > U64_MAX then (Err(ArithmeticOverflow), l)
    else if l.waiterBytes + bytes.value > l.maxWaiterBytes then (Err(QueueByteLimit), l)
    else if l.nextWaiter >= U64_MAX then (Err(IdExhausted), l)
    else
      (Ok(Queued(l.nextWaiter)),
       l.(nextWaiter := l.nextWaiter + 1,
       waiters := l.waiters + [Waiter(l.nextWaiter, owner, resources, bytes.value)],
       waiterBytes := l.waiterBytes + bytes.value))
  }

  function Request(l: Ledger, owner: nat, resources: ResourceVector): (Result<Admission, LedgerError>, Ledger) {
    if !FitsWithin(resources, l.capacity) then (Err(RequestExceedsCapacity), l)
    else if l.waiters == [] && Admissible(l, owner, resources) then
      var (issued, l') := Issue(l, owner, resources, None);
      match issued
      case Ok(grant) => (Ok(Granted(grant)), l')
      case Err(error) => (Err(error), l')
    else Enqueue(l, owner, resources)
  }

  predicate HeadAdmissible(l: Ledger) {
    l.waiters != [] && Admissible(l, l.waiters[0].owner, l.waiters[0].resources)
  }

  function PopHead(l: Ledger): Ledger
    requires l.waiters != [] && l.waiters[0].variableBytes <= l.waiterBytes
  {
    l.(waiters := l.waiters[1..], waiterBytes := l.waiterBytes - l.waiters[0].variableBytes)
  }

  /** Admit waiters from the head of the queue until the head is blocked. */
  function Drain(l: Ledger): (Result<seq<Grant>, LedgerError>, Ledger)
    decreases |l.waiters|
  {
    if !HeadAdmissible(l) then (Ok([]), l)
    else if l.waiterBytes < l.waiters[0].variableBytes then
      (Err(InvariantViolation), l.(waiters := l.waiters[1..]))
    else
      var w := l.waiters[0];
      var (issued, l1) := Issue(PopHead(l), w.owner, w.resources, Some(w.id));
      match issued
      case Err(error) => (Err(error), l1)
      case Ok(grant) =>
        var (rest, l2) := Drain(l1);
        match rest
        case Err(error) => (Err(error), l2)
        case Ok(grants) => (Ok([grant] + grants), l2)
  }

  predicate Queues(waiters: seq<Waiter>, id: nat) {
    exists i :: 0 <= i < |waiters| && waiters[i].id == id
  }

  /** The place of the first entry carrying `id`. */
  function Position(waiters: seq<Waiter>, id: nat): (p: nat)
    requires Queues(waiters, id)
    ensures p < |waiters| && waiters[p].id == id
    ensures forall i :: 0 <= i < p ==> waiters[i].id != id
  {
    if waiters[0].id == id then 0 else 1 + Position(waiters[1..], id)
  }

  function Without(waiters: seq<Waiter>, p: nat): seq<Waiter>
    requires p < |waiters|
  {
    waiters[..p] + waiters[p + 1..]
  }

  function CancelChecked(l: Ledger, id: nat): (Result<seq<Grant>, LedgerError>, Ledger) {
    if !Queues(l.waiters, id) then (Err(UnknownWaiter(id)), l)
    else
      var p := Position(l.waiters, id);
      if l.waiterBytes < l.waiters[p].variableBytes then
        (Err(InvariantViolation), l.(waiters := Without(l.waiters, p)))
      else Drain(Withdrawn(l, p))
  }

  function Withdrawn(l: Ledger, p: nat): Ledger
    requires p < |l.waiters| && l.waiters[p].variableBytes <= l.waiterBytes
  {
    l.(waiters := Without(l.waiters, p), waiterBytes := l.waiterBytes - l.waiters[p].variableBytes)
  }

  function ReleaseChecked(l: Ledger, id: nat, owner: nat): (Result<seq<Grant>, LedgerError>, Ledger) {
    if id !in l.active then
      (Err(if 0 < id < l.nextGrant then GrantAlreadyReleased(id) else UnknownGrant(id)), l)
    else if l.active[id].owner != owner then (Err(GrantOwnerMismatch(l.active[id].owner, owner)), l)
    else
      if CheckedSub(l.inUse, l.active[id].resources).None? then (Err(InvariantViolation), l)
      else Drain(Freed(l, id))
  }

  function Freed(l: Ledger, id: nat): Ledger
    requires id in l.active && CheckedSub(l.inUse, l.active[id].resources).Some?
  {
    l.(inUse := CheckedSub(l.inUse, l.active[id].resources).value, active := l.active - {id})
  }

  /** Cancel and release work on a copy that replaces the ledger only on success. */
  function Commit(before: Ledger, attempt: (Result<seq<Grant>, LedgerError>, Ledger))
    : (Result<seq<Grant>, LedgerError>, Ledger)
  {
    (attempt.0, if attempt.0.Ok? then attempt.1 else before)
  }

  function CancelWaiter(l: Ledger, id: nat): (Result<seq<Grant>, LedgerError>, Ledger) {
    Commit(l, CancelChecked(l, id))
  }

  function Release(l: Ledger, id: nat, owner: nat): (Result<seq<Grant>, LedgerError>, Ledger) {
    Commit(l, ReleaseChecked(l, id, owner))
  }

  // ---------------------------------------------------------------------------
  // Invariant

  /** Sum of the vectors of the active grants numbered below `n`. */
  function HeldBelow(active: map<nat, Grant>, n: nat): ResourceVector {
    if n == 0 then ZERO
    else if n - 1 in active then Plus(HeldBelow(active, n - 1), active[n - 1].resources)
    else HeldBelow(active, n - 1)
  }

  function QueuedBytes(waiters: seq<Waiter>): nat {
    if waiters == [] then 0 else waiters[0].variableBytes + QueuedBytes(waiters[1..])
  }

  ghost predicate Increasing(waiters: seq<Waiter>) {
    forall i, j :: 0 <= i < j < |waiters| ==> waiters[i].id < waiters[j].id
  }

  ghost predicate WaiterOk(l: Ledger, w: Waiter) {
    && 0 < w.id < l.nextWaiter
    && FitsWithin(w.resources, l.capacity)
    && DeclaredVariableBytes(w.resources) == Some(w.variableBytes)
  }

  ghost predicate LimitsOk(l: Ledger) {
    && Representable(l.capacity)
    && 0 < l.maxActivePerOwner <= l.maxActiveGrants
    && l.maxWaiterBytes <= U64_MAX
    && 0 < l.nextGrant <= U64_MAX
    && 0 < l.nextWaiter <= U64_MAX
  }

  ghost predicate ActiveOk(l: Ledger) {
    && (forall id :: id in l.active ==> 0 < id < l.nextGrant && l.active[id].id == id)
    && l.inUse == HeldBelow(l.active, l.nextGrant)
    && FitsWithin(l.inUse, l.capacity)
    && |l.active| <= l.maxActiveGrants
    && (forall owner :: |OwnerGrants(l.active, owner)| <= l.maxActivePerOwner)
  }

  ghost predicate QueueOk(l: Ledger) {
    && Increasing(l.waiters)
    && (forall i :: 0 <= i < |l.waiters| ==> WaiterOk(l, l.waiters[i]))
    && |l.waiters| <= l.maxWaiters
    && l.waiterBytes == QueuedBytes(l.waiters) <= l.maxWaiterBytes
  }

  ghost predicate Accounted(l: Ledger) {
    LimitsOk(l) && ActiveOk(l) && QueueOk(l)
  }

  /** No lost wake-up: whoever heads the queue cannot be admitted right now. */
  ghost predicate HeadBlocked(l: Ledger) {
    l.waiters == [] || !HeadAdmissible(l)
  }

  ghost predicate Inv(l: Ledger) {
    Accounted(l) && HeadBlocked(l)
  }

  // ---------------------------------------------------------------------------
  // Sums and counts

  lemma {:induction false} HeldFrame(a: map<nat, Grant>, b: map<nat, Grant>, n: nat)
    requires forall id :: id < n ==> (id in a <==> id in b) && (id in a ==> a[id] == b[id])
    ensures HeldBelow(a, n) == HeldBelow(b, n)
  {
    if n > 0 { HeldFrame(a, b, n - 1); }
  }

  lemma {:induction false} HeldWithout(active: map<nat, Grant>, id: nat, n: nat)
    requires id in active && id < n
    ensures HeldBelow(active, n) == Plus(HeldBelow(active - {id}, n), active[id].resources)
  {
    var rest := active - {id};
    if id == n - 1 {
      HeldFrame(active, rest, id);
    } else {
      HeldWithout(active, id, n - 1);
      if n - 1 in active {
        PlusRotates(HeldBelow(rest, n - 1), active[id].resources, active[n - 1].resources);
      }
    }
  }

  lemma {:induction false} HeldNothing(n: nat)
    ensures HeldBelow(map[], n) == ZERO
  {
    if n > 0 { HeldNothing(n - 1); }
  }

  lemma OwnerGrantsInsert(active: map<nat, Grant>, id: nat, g: Grant, owner: nat)
    requires id !in active
    ensures |OwnerGrants(active[id := g], owner)| ==
            |OwnerGrants(active, owner)| + if g.owner == owner then 1 else 0
  {
    var s := OwnerGrants(active, owner);
    assert OwnerGrants(active[id := g], owner) == if g.owner == owner then s + {id} else s;
  }

  lemma OwnerGrantsRemove(active: map<nat, Grant>, id: nat, owner: nat)
    ensures |OwnerGrants(active - {id}, owner)| <= |OwnerGrants(active, owner)|
  {
    SubsetSize(OwnerGrants(active - {id}, owner), OwnerGrants(active, owner));
  }

  lemma {:induction false} SubsetSize<T>(a: set<T>, b: set<T>)
    requires a <= b
    ensures |a| <= |b|
  {
    assert b == a + (b - a);
  }

  lemma {:induction false} QueuedBytesAppend(waiters: seq<Waiter>, w: Waiter)
    ensures QueuedBytes(waiters + [w]) == QueuedBytes(waiters) + w.variableBytes
  {
    if waiters != [] {
      assert (waiters + [w])[1..] == waiters[1..] + [w];
      QueuedBytesAppend(waiters[1..], w);
    }
  }

  lemma {:induction false} QueuedBytesWithout(waiters: seq<Waiter>, p: nat)
    requires p < |waiters|
    ensures QueuedBytes(waiters) == QueuedBytes(Without(waiters, p)) + waiters[p].variableBytes
  {
    if p == 0 {
      assert Without(waiters, 0) == waiters[1..];
    } else {
      QueuedBytesWithout(waiters[1..], p - 1);
      assert Without(waiters, p)[1..] == Without(waiters[1..], p - 1);
    }
  }

  // ---------------------------------------------------------------------------
  // Each operation keeps the accounting

  lemma AdmissibleMeansFits(l: Ledger, resources: ResourceVector)
    requires Representable(l.capacity)
    ensures CanGrant(l, resources) <==> FitsWithin(Plus(l.inUse, resources), l.capacity)
  {
  }

  lemma IssueKeeps(l: Ledger, owner: nat, resources: ResourceVector, source: Option<nat>)
    requires Accounted(l) && Admissible(l, owner, resources) && l.nextGrant < U64_MAX
    ensures Issue(l, owner, resources, source).0 == Ok(Grant(l.nextGrant, owner, resources, source))
    ensures Accounted(Issue(l, owner, resources, source).1)
  {
    var grant := Grant(l.nextGrant, owner, resources, source);
    var l' := Issue(l, owner, resources, source).1;
    assert l'.active == l.active[l.nextGrant := grant];
    HeldFrame(l.active, l'.active, l.nextGrant);
    assert HeldBelow(l'.active, l.nextGrant + 1) == Plus(l.inUse, resources);
    assert l'.active.Keys == l.active.Keys + {l.nextGrant};
    forall o ensures |OwnerGrants(l'.active, o)| <= l.maxActivePerOwner {
      OwnerGrantsInsert(l.active, l.nextGrant, grant, o);
    }
    QueueFrame(l, l');
  }

  lemma PopHeadKeeps(l: Ledger)
    requires Accounted(l) && l.waiters != []
    ensures l.waiters[0].variableBytes <= l.waiterBytes
    ensures Accounted(PopHead(l))
  {
    var l' := PopHead(l);
    forall i | 0 <= i < |l'.waiters| ensures WaiterOk(l', l'.waiters[i]) {
      assert WaiterOk(l, l.waiters[i + 1]);
    }
  }

  /** Grants produced for the first waiters of a queue, numbered consecutively from `n`. */
  ghost predicate IssuedInOrder(waiters: seq<Waiter>, n: nat, grants: seq<Grant>) {
    && |grants| <= |waiters|
    && (forall i :: 0 <= i < |grants| ==>
          grants[i] == Grant(n + i, waiters[i].owner, waiters[i].resources, Some(waiters[i].id)))
  }

  /** `after` is `before` with exactly the given grants added, numbered from `n`. */
  ghost predicate Extends(before: map<nat, Grant>, n: nat, grants: seq<Grant>, after: map<nat, Grant>) {
    && (forall id :: id in after <==> id in before || n <= id < n + |grants|)
    && (forall id :: id in before && id < n ==> after[id] == before[id])
    && (forall id :: n <= id < n + |grants| ==> after[id] == grants[id - n])
  }

  ghost predicate SameLimits(l: Ledger, l': Ledger) {
    && l'.capacity == l.capacity
    && l'.maxActiveGrants == l.maxActiveGrants
    && l'.maxActivePerOwner == l.maxActivePerOwner
    && l'.maxWaiters == l.maxWaiters
    && l'.maxWaiterBytes == l.maxWaiterBytes
  }

  /** `l'` is `l` after admitting exactly the first `|grants|` waiters. */
  ghost predicate AdmittedPrefix(l: Ledger, grants: seq<Grant>, l': Ledger) {
    && IssuedInOrder(l.waiters, l.nextGrant, grants)
    && Extends(l.active, l.nextGrant, grants, l'.active)
    && l'.waiters == l.waiters[|grants|..]
    && l'.nextGrant == l.nextGrant + |grants|
    && l'.nextWaiter == l.nextWaiter
    && SameLimits(l, l')
  }

  function HeadGrant(l: Ledger): Grant
    requires l.waiters != []
  {
    Grant(l.nextGrant, l.waiters[0].owner, l.waiters[0].resources, Some(l.waiters[0].id))
  }

  /** The ledger after admitting its head, were grant numbers unlimited. */
  function AdmitHead(l: Ledger): Ledger
    requires l.waiters != [] && l.waiters[0].variableBytes <= l.waiterBytes
  {
    PopHead(l).(nextGrant := l.nextGrant + 1, inUse := Plus(l.inUse, l.waiters[0].resources),
    active := l.active[l.nextGrant := HeadGrant(l)])
  }

  /** How many head waiters would be admitted if grant numbers never ran out. */
  function AdmissibleRun(l: Ledger): nat
    decreases |l.waiters|
  {
    if !HeadAdmissible(l) || l.waiterBytes < l.waiters[0].variableBytes then 0
    else 1 + AdmissibleRun(AdmitHead(l))
  }

  lemma AdmitHeadStep(l: Ledger)
    requires Accounted(l) && HeadAdmissible(l) && l.nextGrant < U64_MAX
    ensures l.waiters[0].variableBytes <= l.waiterBytes
    ensures Accounted(AdmitHead(l))
    ensures var w := l.waiters[0];
            Issue(PopHead(l), w.owner, w.resources, Some(w.id)) == (Ok(HeadGrant(l)), AdmitHead(l))
  {
    PopHeadKeeps(l);
    IssueKeeps(PopHead(l), l.waiters[0].owner, l.waiters[0].resources, Some(l.waiters[0].id));
  }

  /** Draining can only fail for want of grant numbers, and this says exactly when it does. */
  lemma {:induction false} DrainFailsIffIdsRunOut(l: Ledger)
    requires Accounted(l)
    ensures Drain(l).0.Err? <==> l.nextGrant + AdmissibleRun(l) > U64_MAX
    ensures Drain(l).0.Err? ==> Drain(l).0 == Err(IdExhausted)
    decreases |l.waiters|
  {
    if HeadAdmissible(l) {
      PopHeadKeeps(l);
      if l.nextGrant < U64_MAX {
        AdmitHeadStep(l);
        DrainFailsIffIdsRunOut(AdmitHead(l));
      }
    }
  }

  lemma DrainStep(l: Ledger)
    requires Accounted(l) && HeadAdmissible(l) && Drain(l).0.Ok?
    ensures l.waiters[0].variableBytes <= l.waiterBytes
    ensures Accounted(AdmitHead(l)) && Drain(AdmitHead(l)).0.Ok?
    ensures Drain(l) == (Ok([HeadGrant(l)] + Drain(AdmitHead(l)).0.value), Drain(AdmitHead(l)).1)
  {
    DrainFailsIffIdsRunOut(l);
    AdmitHeadStep(l);
  }

  lemma {:induction false} DrainKeeps(l: Ledger)
    requires Accounted(l) && Drain(l).0.Ok?
    ensures Inv(Drain(l).1)
    decreases |l.waiters|
  {
    if HeadAdmissible(l) {
      DrainStep(l);
      DrainKeeps(AdmitHead(l));
    }
  }

  /** A successful drain admits a prefix of the queue, in order. */
  lemma {:induction false} DrainAdmitsPrefix(l: Ledger)
    requires Accounted(l) && Drain(l).0.Ok?
    ensures AdmittedPrefix(l, Drain(l).0.value, Drain(l).1)
    decreases |l.waiters|
  {
    if HeadAdmissible(l) {
      DrainStep(l);
      DrainAdmitsPrefix(AdmitHead(l));
      ConsAdmitted(l, Drain(AdmitHead(l)).0.value, Drain(AdmitHead(l)).1);
    } else {
      assert l.waiters[0..] == l.waiters;
    }
  }

  lemma ConsAdmitted(l: Ledger, rest: seq<Grant>, l': Ledger)
    requires l.waiters != [] && l.waiters[0].variableBytes <= l.waiterBytes
    requires forall id :: id in l.active ==> id < l.nextGrant
    requires AdmittedPrefix(AdmitHead(l), rest, l')
    ensures AdmittedPrefix(l, [HeadGrant(l)] + rest, l')
  {
    hide IssuedInOrder, Extends, Plus;
    ConsIssued(l.waiters, l.nextGrant, rest);
    ConsExtends(l.active, l.nextGrant, HeadGrant(l), rest, l'.active);
    assert l.waiters[1..][|rest|..] == l.waiters[|rest| + 1..];
  }

  lemma ConsIssued(waiters: seq<Waiter>, n: nat, rest: seq<Grant>)
    requires waiters != [] && IssuedInOrder(waiters[1..], n + 1, rest)
    ensures IssuedInOrder(waiters, n, [Grant(n, waiters[0].owner, waiters[0].resources, Some(waiters[0].id))] + rest)
  {
    var grants := [Grant(n, waiters[0].owner, waiters[0].resources, Some(waiters[0].id))] + rest;
    forall i | 0 < i < |grants|
      ensures grants[i] == Grant(n + i, waiters[i].owner, waiters[i].resources, Some(waiters[i].id))
    {
      assert grants[i] == rest[i - 1] && waiters[1..][i - 1] == waiters[i];
    }
  }

  lemma ConsExtends(before: map<nat, Grant>, n: nat, g: Grant, rest: seq<Grant>, after: map<nat, Grant>)
    requires forall id :: id in before ==> id < n
    requires Extends(before[n := g], n + 1, rest, after)
    ensures Extends(before, n, [g] + rest, after)
  {
    var grants := [g] + rest;
    forall id | n <= id < n + |grants| ensures id in after && after[id] == grants[id - n] {
      if id > n { assert grants[id - n] == rest[id - (n + 1)]; }
    }
  }

  lemma EnqueueKeeps(l: Ledger, owner: nat, resources: ResourceVector)
    requires Accounted(l) && FitsWithin(resources, l.capacity)
    requires l.waiters == [] ==> !Admissible(l, owner, resources)
    requires l.waiters != [] ==> HeadBlocked(l)
    ensures Accounted(Enqueue(l, owner, resources).1) && HeadBlocked(Enqueue(l, owner, resources).1)
    ensures Enqueue(l, owner, resources).0.Err? ==> Enqueue(l, owner, resources).1 == l
  {
    hide Plus, CheckedAdd;
    var (r, l') := Enqueue(l, owner, resources);
    if r.Ok? {
      var w := l'.waiters[|l.waiters|];
      QueuedBytesAppend(l.waiters, w);
      forall i | 0 <= i < |l'.waiters| ensures WaiterOk(l', l'.waiters[i]) {
        if i < |l.waiters| { assert WaiterOk(l, l.waiters[i]); }
      }
    }
  }

  lemma RequestKeeps(l: Ledger, owner: nat, resources: ResourceVector)
    requires Inv(l)
    ensures Inv(Request(l, owner, resources).1)
    ensures Request(l, owner, resources).0.Err? ==> Request(l, owner, resources).1 == l
  {
    hide LimitsOk, ActiveOk, QueueOk, Enqueue;
    if FitsWithin(resources, l.capacity) {
      if l.waiters == [] && Admissible(l, owner, resources) {
        if l.nextGrant < U64_MAX { IssueKeeps(l, owner, resources, None); }
      } else {
        EnqueueKeeps(l, owner, resources);
      }
    }
  }

  /** Memory, read, write and sink bytes together: what a waiter counts for in the queue. */
  function VariableBytes(v: ResourceVector): nat {
    v.memoryBytes + v.diskReadBytesInFlight + v.diskWriteBytesInFlight + v.sinkBytes
  }

  /** Granted at once: nobody waits and none of the three reasons to wait is there. */
  ghost predicate GrantedAtOnce(l: Ledger, owner: nat, resources: ResourceVector) {
    && l.waiters == []
    && |l.active| < l.maxActiveGrants
    && |OwnerGrants(l.active, owner)| < l.maxActivePerOwner
    && FitsWithin(Plus(l.inUse, resources), l.capacity)
  }

  /** What a request that is granted at once does: exactly the requested vector is charged to its owner. */
  ghost predicate Charged(l: Ledger, owner: nat, resources: ResourceVector, l': Ledger) {
    && l'.inUse == Plus(l.inUse, resources)
    && l'.active == l.active[l.nextGrant := Grant(l.nextGrant, owner, resources, None)]
    && l'.nextGrant == l.nextGrant + 1
    && l'.waiters == l.waiters && l'.waiterBytes == l.waiterBytes && l'.nextWaiter == l.nextWaiter
    && SameLimits(l, l')
  }

  /** What a request that has to wait does: it goes to the end of the queue and nothing is charged. */
  ghost predicate Waits(l: Ledger, owner: nat, resources: ResourceVector, l': Ledger) {
    && l'.waiters == l.waiters + [Waiter(l.nextWaiter, owner, resources, VariableBytes(resources))]
    && l'.waiterBytes == l.waiterBytes + VariableBytes(resources)
    && l'.nextWaiter == l.nextWaiter + 1
    && l'.inUse == l.inUse && l'.active == l.active && l'.nextGrant == l.nextGrant
    && SameLimits(l, l')
  }

  /**
   A request is answered in exactly one way. It is refused for good if it exceeds the whole
   capacity; it is granted exactly what it asked for if nobody waits and it is admissible and a
   grant number is left; otherwise it joins the queue exactly as asked, if there is a place, its
   variable bytes fit and a waiter number is left. Every refusal names its reason.
   */
  lemma RequestIsExact(l: Ledger, owner: nat, resources: ResourceVector)
    requires Inv(l)
    ensures var (r, l') := Request(l, owner, resources);
            var bytes := VariableBytes(resources);
            if !FitsWithin(resources, l.capacity) then r == Err(RequestExceedsCapacity) && l' == l
            else if GrantedAtOnce(l, owner, resources) then
              if l.nextGrant < U64_MAX then
                r == Ok(Granted(Grant(l.nextGrant, owner, resources, None))) && Charged(l, owner, resources, l')
              else r == Err(IdExhausted) && l' == l
            else if |l.waiters| >= l.maxWaiters then r == Err(QueueItemLimit) && l' == l
            else if l.waiterBytes + bytes > l.maxWaiterBytes then
              r == Err(if l.waiterBytes + bytes > U64_MAX then ArithmeticOverflow else QueueByteLimit) && l' == l
            else if l.nextWaiter >= U64_MAX then r == Err(IdExhausted) && l' == l
            else r == Ok(Queued(l.nextWaiter)) && Waits(l, owner, resources, l')
  {
    AdmissibleMeansFits(l, resources);
    assert Admissible(l, owner, resources) && l.waiters == [] <==> GrantedAtOnce(l, owner, resources);
    hide ActiveOk, QueueOk, HeadBlocked, FitsWithin, Representable;
  }

  /** The same as one condition: when a request succeeds at all. */
  lemma RequestSucceedsIff(l: Ledger, owner: nat, resources: ResourceVector)
    requires Inv(l)
    ensures Request(l, owner, resources).0.Ok? <==>
              && FitsWithin(resources, l.capacity)
              && if GrantedAtOnce(l, owner, resources) then l.nextGrant < U64_MAX
                 else
                   && |l.waiters| < l.maxWaiters
                   && l.waiterBytes + resources.memoryBytes + resources.diskReadBytesInFlight
                      + resources.diskWriteBytesInFlight + resources.sinkBytes <= l.maxWaiterBytes
                   && l.nextWaiter < U64_MAX
  {
    hide Request, Inv, GrantedAtOnce, FitsWithin, Charged, Waits;
    RequestIsExact(l, owner, resources);
  }

  lemma FreedKeeps(l: Ledger, id: nat)
    requires Accounted(l) && id in l.active
    ensures CheckedSub(l.inUse, l.active[id].resources).Some?
    ensures Accounted(Freed(l, id))
  {
    HeldWithout(l.active, id, l.nextGrant);
    var remaining := HeldBelow(l.active - {id}, l.nextGrant);
    PlusGrows(remaining, l.active[id].resources);
    PlusCancels(remaining, Minus(l.inUse, l.active[id].resources), l.active[id].resources);
    FitsTransitive(remaining, l.inUse, l.capacity);
    var l' := Freed(l, id);
    assert l'.active.Keys == l.active.Keys - {id};
    forall o ensures |OwnerGrants(l'.active, o)| <= l.maxActivePerOwner {
      OwnerGrantsRemove(l.active, id, o);
    }
    assert QueueOk(l') by { QueueFrame(l, l'); }
  }

  lemma QueueFrame(l: Ledger, l': Ledger)
    requires QueueOk(l)
    requires l'.waiters == l.waiters && l'.waiterBytes == l.waiterBytes && l'.maxWaiters == l.maxWaiters
    requires l'.maxWaiterBytes == l.maxWaiterBytes && l'.nextWaiter >= l.nextWaiter && l'.capacity == l.capacity
    ensures QueueOk(l')
  {
    forall i | 0 <= i < |l'.waiters| ensures WaiterOk(l', l'.waiters[i]) {
      assert WaiterOk(l, l.waiters[i]);
    }
  }

  lemma WithdrawnKeeps(l: Ledger, p: nat)
    requires Accounted(l) && p < |l.waiters|
    ensures l.waiters[p].variableBytes <= l.waiterBytes
    ensures Accounted(Withdrawn(l, p))
  {
    QueuedBytesWithout(l.waiters, p);
    var l' := Withdrawn(l, p);
    forall i | 0 <= i < |l'.waiters| ensures WaiterOk(l', l'.waiters[i]) {
      assert WaiterOk(l, l.waiters[if i < p then i else i + 1]);
    }
  }

  lemma ReleaseKeeps(l: Ledger, id: nat, owner: nat)
    requires Inv(l)
    ensures Inv(Release(l, id, owner).1)
    ensures Release(l, id, owner).0.Err? ==> Release(l, id, owner).1 == l
    ensures id in l.active && l.active[id].owner == owner ==>
              && CheckedSub(l.inUse, l.active[id].resources).Some?
              && var (r, l') := Release(l, id, owner);
              && (r.Err? <==> l.nextGrant + AdmissibleRun(Freed(l, id)) > U64_MAX)
              && (r.Err? ==> r == Err(IdExhausted))
              && (r.Ok? ==> AdmittedPrefix(Freed(l, id), r.value, l'))
  {
    if id in l.active && l.active[id].owner == owner {
      FreedKeeps(l, id);
      DrainFailsIffIdsRunOut(Freed(l, id));
      if Drain(Freed(l, id)).0.Ok? {
        DrainKeeps(Freed(l, id));
        DrainAdmitsPrefix(Freed(l, id));
      }
    }
  }

  lemma CancelKeeps(l: Ledger, id: nat)
    requires Inv(l)
    ensures Inv(CancelWaiter(l, id).1)
    ensures CancelWaiter(l, id).0.Err? ==> CancelWaiter(l, id).1 == l
    ensures Queues(l.waiters, id) ==>
              var p := Position(l.waiters, id);
              && l.waiters[p].variableBytes <= l.waiterBytes
              && var (r, l') := CancelWaiter(l, id);
              && (r.Err? <==> l.nextGrant + AdmissibleRun(Withdrawn(l, p)) > U64_MAX)
              && (r.Err? ==> r == Err(IdExhausted))
              && (r.Ok? ==> AdmittedPrefix(Withdrawn(l, p), r.value, l'))
  {
    if Queues(l.waiters, id) {
      var p := Position(l.waiters, id);
      WithdrawnKeeps(l, p);
      DrainFailsIffIdsRunOut(Withdrawn(l, p));
      if Drain(Withdrawn(l, p)).0.Ok? {
        DrainKeeps(Withdrawn(l, p));
        DrainAdmitsPrefix(Withdrawn(l, p));
      }
    }
  }

  /** The ledger after `grants` were issued to the head of a queue, on top of what was kept active. */
  ghost predicate Reissued(l: Ledger, kept: map<nat, Grant>, queue: seq<Waiter>, grants: seq<Grant>, l': Ledger) {
    && IssuedInOrder(queue, l.nextGrant, grants) && Extends(kept, l.nextGrant, grants, l'.active)
    && l'.waiters == queue[|grants|..]
    && l'.nextGrant == l.nextGrant + |grants| && l'.nextWaiter == l.nextWaiter && SameLimits(l, l')
  }

  /**
   A release names why it is refused, and otherwise takes exactly the released grant out,
   issues grants to the head of the queue alone, and leaves a head that cannot be admitted.
   What is in use and what is queued then follow from the grants and waiters that remain.
   */
  lemma ReleaseIsExact(l: Ledger, id: nat, owner: nat)
    requires Inv(l)
    ensures var (r, l') := Release(l, id, owner);
            if id !in l.active then
              r == Err(if 0 < id < l.nextGrant then GrantAlreadyReleased(id) else UnknownGrant(id))
            else if l.active[id].owner != owner then r == Err(GrantOwnerMismatch(l.active[id].owner, owner))
            else r == Err(IdExhausted) || (r.Ok? && Reissued(l, l.active - {id}, l.waiters, r.value, l'))
  {
    ReleaseKeeps(l, id, owner);
    hide Drain, Inv, IssuedInOrder, Extends, AdmissibleRun;
  }

  /** A cancellation takes exactly the one waiter out of the queue, and then issues as a release does. */
  lemma CancelIsExact(l: Ledger, id: nat, p: nat)
    requires Inv(l)
    ensures (forall i :: 0 <= i < |l.waiters| ==> l.waiters[i].id != id) ==>
              CancelWaiter(l, id) == (Err(UnknownWaiter(id)), l)
    ensures p < |l.waiters| && l.waiters[p].id == id ==>
              var (r, l') := CancelWaiter(l, id);
              r == Err(IdExhausted)
              || (r.Ok? && Reissued(l, l.active, l.waiters[..p] + l.waiters[p + 1..], r.value, l'))
  {
    assert Increasing(l.waiters);
    hide Inv, Increasing, Position, Drain, IssuedInOrder, Extends, AdmissibleRun;
    CancelKeeps(l, id);
    if p < |l.waiters| && l.waiters[p].id == id {
      OnlyPosition(l.waiters, id, p);
    }
  }

  lemma OnlyPosition(waiters: seq<Waiter>, id: nat, p: nat)
    requires Increasing(waiters) && p < |waiters| && waiters[p].id == id
    ensures Queues(waiters, id) && Position(waiters, id) == p
  {
  }
}
