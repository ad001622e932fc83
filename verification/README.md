# Verified model of the fforager core

This project models the parts of fforager in which state and ordering carry the weight, and
proves what they promise over every run:

- **Resource admission.** A ledger grants vectors of thirteen resources all or nothing, with a
  ceiling per owner and a bounded first-come-first-served queue. A broker on top of it hands out
  leases and waiter handles that are given up exactly once.
- **Byte credit.** A ledger bounds claims globally, per owner and per pipeline stage at the same
  time, and lets durability positions advance only as far as bytes were really consumed.
- **Lifecycles.** The FFmpeg supervisor with one pending effect at a time; the generic engine that
  defers a state change until its effects are acknowledged, recovers, restarts and replays; the
  commit protocol and the byte-durability machine that run on it, and the other eight lifecycle
  tables.
- **Source graphs.** The explicit-stack search for relationship cycles and the bounded redirect and
  provenance walks.
- **Prefix scanners.** The incremental frame decoder, the journal prefix scan, and the canonical
  archive key.

## How it is organised

Each component has a module of values and functions in which the properties are stated and proved
over all runs, and, where the program mutates objects, a module of classes whose methods are
proved to do exactly what those functions prescribe. `ResourceLedgers.Drain`, for example, is what
`ResourceObjects.ResourceLedger.DrainWaiters`, a loop over mutable fields, is proved to compute.

Safety alone would also hold of a machine that refuses everything, so the lifecycles are pinned from
both sides. `StateMachineTrace` and `FfmpegOutcome` define what a machine must reply from its recorded
trace alone, without its flags and counters, and prove that every run replies so. `CommitRun`,
`ByteRun` and `MoveList` prove what can be done: which requests a resting machine accepts, where each
one ends once its effects are acknowledged, and that every state is reached. The ledgers' replies to
a request, a claim, a transfer, a release and an acknowledgement are stated in numbers.

| files | component |
|---|---|
| ResourceVector, ResourceLedger, ResourceHistory, ResourceBroker, ResourceObjects | resource admission |
| ByteCredit, ByteCreditRefusal, ByteCreditObject | byte credit |
| FfmpegLifecycle, FfmpegOutcome, FfmpegObject | FFmpeg supervisor |
| StateMachine, StateMachineTrace, StateMachineObject | correlated-effect engine |
| WrapperLifecycle, MoveList, WrapperRun | the other eight lifecycle tables, from rest to rest |
| CommitLifecycle, CommitRun | commit protocol |
| ByteLifecycle, ByteRun, ByteLifecycleObject | byte durability coupled to the credit broker |
| SourceGraph | source-graph validation |
| Framing, FramingObject, Journal, ArchiveKey | scanners and keys |

Machine integers are unbounded here, so every width that matters is written out: identifiers,
generations, byte counts and occupancy sums carry explicit 32-bit and 64-bit limits and fail where
the program's checked arithmetic fails. Sizes counted with `usize` are taken to be 64 bits wide.

Findings worth knowing before reading the table:

- Handle accounting is not unconditional. Releasing or cancelling rolls back when a waiter that
  becomes admissible would need grant number 2^64 - 1 or higher, while the handle is gone all the
  same, so its grant stays active with nobody to release it. `StepKeepsAccountingIff` gives the
  exact condition, `SpareNumbersSuffice` a sufficient one that is read off the queue length, and
  `LastNumberStrandsGrant` the failing runs, from a fresh broker to the stranded grant.
- A coupled claim uses one claim number and two single claims use two, so the two ways of claiming
  agree except when only one number is left; `CoupledRefinesSequential` says so exactly.
- Some branches can never be taken. A supervisor whose grace period expires always kills: the branch
  for a child already seen to exit is never reached, since the observed exit has left the phase that
  accepts the expiry (`SupervisorRefinesTrace`). A machine never rests in a state that an
  acknowledgement moves on, so cancelling or failing a verifying job, failing a cancelling job or a
  draining plug-in, and cancelling or failing bytes in mid-write or mid-synchronization are in the
  tables only (`EveryKindMovesAsListed`, `BytesMoveAsListed`).

## Model

| member | source | states |
|---|---|---|
| `ResourceVectors.Minus` | product/crates/fforager-contracts/src/resource.rs:67-93 | subtraction, where it is defined, is the exact inverse of component-wise addition over all thirteen dimensions |
| `ResourceLedgers.AdmissibleMeansFits` | product/crates/fforager-core/src/resource.rs:346-351 | for a representable capacity the overflow check adds nothing: a vector can be granted iff the exact sum fits |
| `ResourceLedgers.IssueKeeps` | product/crates/fforager-core/src/resource.rs:353-380 | issuing an admissible request while numbers are left succeeds with the next number and keeps in-use equal to the sum of active grants and all limits |
| `ResourceLedgers.DrainFailsIffIdsRunOut` | product/crates/fforager-core/src/resource.rs:382-403 | draining fails iff the run of admissible head waiters needs more grant numbers than are left, and then only with that error |
| `ResourceLedgers.DrainKeeps` | product/crates/fforager-core/src/resource.rs:382-403 | a successful drain leaves every sum and limit intact and the head of the queue genuinely blocked |
| `ResourceLedgers.DrainAdmitsPrefix` | product/crates/fforager-core/src/resource.rs:382-403 | a successful drain grants exactly a prefix of the queue, in order, with consecutive numbers, and touches nothing else |
| `ResourceLedgers.RequestKeeps` | product/crates/fforager-core/src/resource.rs:209-250 | a request keeps accounting, limits and the blocked head; a refused one changes nothing |
| `ResourceLedgers.RequestIsExact` | product/crates/fforager-core/src/resource.rs:209-250 | a request is answered in exactly one way: too big for the capacity, granted with exactly the requested vector charged to its owner, queued exactly as asked, or refused with the limit that is in the way; each case has its condition and its whole new state |
| `ResourceLedgers.RequestSucceedsIff` | product/crates/fforager-core/src/resource.rs:209-250 | a request succeeds iff it fits the capacity and either nobody waits, it is admissible and a grant number is left, or the queue has a place, the four variable byte dimensions fit on top of those queued, and a waiter number is left |
| `ResourceLedgers.ReleaseKeeps` | product/crates/fforager-core/src/resource.rs:283-310 | a release keeps the invariant, is all or nothing, fails for its rightful owner iff numbers run out, and otherwise admits a prefix of the queue |
| `ResourceLedgers.ReleaseIsExact` | product/crates/fforager-core/src/resource.rs:283-310 | a release of an unknown, already released or foreign grant says which; any other takes exactly that grant out and issues grants to the head of the queue alone, or reports exhausted numbers |
| `ResourceLedgers.CancelKeeps` | product/crates/fforager-core/src/resource.rs:257-276 | the same for cancelling a waiter: its place is removed, a prefix of the rest may be admitted, a failure changes nothing |
| `ResourceLedgers.CancelIsExact` | product/crates/fforager-core/src/resource.rs:257-276 | a cancellation of a waiter not queued says so; any other takes exactly that waiter out of its place and then issues to the head of what remains, or reports exhausted numbers |
| `ResourceHistories.ContractBuildsSoundLedger` | product/crates/fforager-core/src/resource.rs:170-187 | a ledger is built iff schema, version and owner ceiling are in order, and starts out sound |
| `ResourceHistories.StepKeeps` | product/crates/fforager-core/src/resource.rs:209-310 | every operation keeps the invariant and the limits, never reports an invariant violation, and changes nothing when refused |
| `ResourceHistories.ReachableIsSound` | product/crates/fforager-core/src/resource.rs:317-344 | after any history the self-check passes, in-use is the exact sum of active grants, the queue head is blocked, and no operation ever reported a violation |
| `ResourceHistories.IdleLedgerHasNoWaiters` | product/crates/fforager-core/src/resource.rs:346-403 | with no active grants the queue is empty and nothing is in use: no wake-up was lost |
| `ResourceHistories.ServedInArrivalOrder` | product/crates/fforager-core/src/resource.rs:209-310 | over any history waiters are served in strictly increasing arrival order and everyone still queued arrived after everyone served |
| `ResourceHistories.DirectGrantOnlyWhenQueueEmpty` | product/crates/fforager-core/src/resource.rs:217-228 | an accepted request is granted at once iff nobody waits and it is admissible |
| `ResourceHistories.WaiterHolds` | product/crates/fforager-core/src/resource.rs:209-310 | a waiter that is neither served nor cancelled never moves back, and while it does not move up nobody at all is granted anything |
| `ResourceHistories.WaiterMovesUp` | product/crates/fforager-core/src/resource.rs:209-403 | over any history a waiter is served or keeps its place; once every grant held at the start is gone it is served or has moved up |
| `ResourceHistories.HeadIsServed` | product/crates/fforager-core/src/resource.rs:209-403 | no starvation: once every grant held at some moment is gone, in any order and amid any other operations, the waiter that was head has been served unless cancelled |
| `ResourceHistories.EveryWaiterIsServed` | product/crates/fforager-core/src/resource.rs:209-403 | no starvation anywhere in the queue: a waiter with p others before it has been served after p + 1 turnovers of the held grants, unless cancelled |
| `ResourceHistories.ReleaseUndoesGrant` | product/crates/fforager-core/src/resource.rs:283-310 | releasing a grant made on the spot restores the ledger, apart from the used-up number |
| `ResourceHistories.ReleasedOnlyOnce` | product/crates/fforager-core/src/resource.rs:290-310 | over any history, after an accepted release every later release of the same grant is refused as already released |
| `ResourceBrokers.RecordedKeeps` | product/crates/fforager-core/src/resource.rs:420-438 | filing dispatched grants loses neither those already ready nor any new one |
| `ResourceBrokers.StepKeepsAccountingIff` | product/crates/fforager-core/src/resource.rs:413-681 | one handle operation keeps the handle accounting iff it does not run out of grant numbers |
| `ResourceBrokers.RepliesAreExact` | product/crates/fforager-core/src/resource.rs:420-681 | in an accounted broker no operation reports an invariant violation; giving up a live handle is refused iff grant numbers run out, and then with that error |
| `ResourceBrokers.HandlesAccountForEverything` | product/crates/fforager-core/src/resource.rs:499-681 | over any run with numbers left, active grants are the disjoint union of leases and ready entries, waiter handles that of queued and ready ids, no violation is reported, and once all handles are gone the broker is empty |
| `ResourceBrokers.ViolationsNeverHappen` | product/crates/fforager-core/src/resource.rs:413-681 | over every run, numbers exhausted or not, no operation reports an invariant violation, and the broker stays accounted for by live handles together with those lost to exhausted numbers |
| `ResourceBrokers.NoHandlesNoGrants` | product/crates/fforager-core/src/resource.rs:499-681 | an accounted broker without live handles has no active grant, no waiter, no ready entry and nothing in use |
| `ResourceBrokers.FreshWorldAccounted` | product/crates/fforager-core/src/resource.rs:476-492 | a broker built from a valid contract starts out accounted |
| `ResourceBrokers.SpareNumbersSuffice` | product/crates/fforager-core/src/resource.rs:382-403 | as many spare grant numbers as there are waiters are enough for any handle operation |
| `ResourceBrokers.ChurnUsesUpNumbers` | product/crates/fforager-core/src/resource.rs:353-380 | asking and releasing n times from an idle broker returns it to idle with exactly n grant numbers used up |
| `ResourceBrokers.LastNumberStrandsGrant` | product/crates/fforager-core/src/resource.rs:602-613 | for every contract under which a second request waits behind the first, a run from the fresh broker takes the last grant number, queues a request and drops the lease: the release is refused, the grant stays active, no lease is left |
| `ResourceBrokers.StrandedGrant` | product/crates/fforager-core/src/resource.rs:602-613 | that run written out for a contract with one slot |
| `ResourceBrokers.GiveUpResolvedWaiter` | product/crates/fforager-core/src/resource.rs:661-669 | cancelling through a handle already resolved reports an unknown waiter and changes nothing |
| `ResourceObjects.ResourceLedger.FromContract` | product/crates/fforager-core/src/resource.rs:170-187 | builds the fresh ledger the contract describes or reports an invalid configuration |
| `ResourceObjects.ResourceLedger.CanGrant` | product/crates/fforager-core/src/resource.rs:346-351 | decides admissibility of a vector against the current use |
| `ResourceObjects.ResourceLedger.Issue` | product/crates/fforager-core/src/resource.rs:353-380 | the in-place issue computes the specified grant and state and leaves the queue alone |
| `ResourceObjects.ResourceLedger.Request` | product/crates/fforager-core/src/resource.rs:209-250 | the in-place request has the specified reply and new state, refusals included |
| `ResourceObjects.ResourceLedger.DrainWaiters` | product/crates/fforager-core/src/resource.rs:382-403 | the loop over the queue computes the recursive drain, including where it stops and what it leaves on failure |
| `ResourceObjects.ResourceLedger.CancelWaiter` | product/crates/fforager-core/src/resource.rs:257-276 | working on a copy that replaces the ledger only on success computes the atomic cancel |
| `ResourceObjects.ResourceLedger.Release` | product/crates/fforager-core/src/resource.rs:283-310 | the same for release |
| `ResourceObjects.ResourceLedger.Verify` | product/crates/fforager-core/src/resource.rs:317-344 | the recomputing self-check accepts iff sums, limits and owner ceilings all hold |
| `ResourceObjects.OwnedResourceState.RecordIssued` | product/crates/fforager-core/src/resource.rs:420-438 | files every grant under its waiter, or files none and reports a violation if one has no waiter or is already filed |
| `ResourceObjects.OwnedResourceState.ReleaseGrant` | product/crates/fforager-core/src/resource.rs:440-450 | releases and files the dispatched grants, ledger and ready entries together or neither |
| `ResourceObjects.OwnedResourceState.CancelWaiter` | product/crates/fforager-core/src/resource.rs:452-462 | releases the ready grant of a waiter already served, or takes the waiter out of the queue |
| `ResourceObjects.OwnedResourceBroker.Request` | product/crates/fforager-core/src/resource.rs:499-517 | exactly one new live handle per admission, none per refusal |
| `ResourceObjects.OwnedResourceBroker.CloneBroker` | product/crates/fforager-core/src/resource.rs:465-472 | one more holder keeps the same state alive |
| `ResourceObjects.OwnedResourceBroker.DropBroker` | product/crates/fforager-core/src/resource.rs:465-472 | one holder fewer; after the last one handles can only report the loss |
| `ResourceObjects.OwnedResourceBroker.ReleaseLease` | product/crates/fforager-core/src/resource.rs:589-613 | explicit release, with the retry when the still armed lease is dropped, gives up the lease exactly once; without a broker it reports so and disarms |
| `ResourceObjects.OwnedResourceBroker.DropLease` | product/crates/fforager-core/src/resource.rs:602-613 | dropping releases the grant while the broker lives and disarms the lease either way |
| `ResourceObjects.OwnedResourceBroker.TryAcquire` | product/crates/fforager-core/src/resource.rs:637-654 | turns a ready entry into a lease and disarms the handle; refuses a handle already resolved, and reports a dropped broker |
| `ResourceObjects.OwnedResourceBroker.CancelWaiter` | product/crates/fforager-core/src/resource.rs:661-681 | cancelling gives the handle up exactly once, whatever the reply, and reports a dropped broker |
| `ResourceObjects.OwnedResourceBroker.DropWaiter` | product/crates/fforager-core/src/resource.rs:672-681 | dropping cancels an armed handle while the broker lives and does nothing for a resolved one |
| `ByteCredits.FreshIsBounded` | product/crates/fforager-core/src/resource.rs:799-811 | a ledger from a valid contract starts within all bounds |
| `ByteCredits.OccupancyIsExact` | product/crates/fforager-core/src/resource.rs:836-873 | within the bounds no occupancy sum overflows and each reported number is the exact sum over live components |
| `ByteCredits.AdmissionMeansFits` | product/crates/fforager-core/src/resource.rs:886-991 | the component check passes iff all six global, owner and stage sums stay within their limits |
| `ByteCredits.RefusalIsPressure` | product/crates/fforager-core/src/resource.rs:875-991 | a refusal within arithmetic range names a declared global, owner or stage limit that really would be exceeded, with its exact occupancy, and the stage's own saturation kind |
| `ByteCredits.ClaimSingleKeeps` | product/crates/fforager-core/src/resource.rs:993-1014 | a single claim succeeds iff it is non-empty, admissible and a number is left; it keeps all bounds, and a refusal changes nothing |
| `ByteCreditRefusals.SingleReply` | product/crates/fforager-core/src/resource.rs:886-1014 | the reply to a single claim is the first of its global, owner and stage demands that goes over, with exact occupancy, limits and saturation kind, or exhausted numbers, or the next number |
| `ByteCredits.ClaimCoupledKeeps` | product/crates/fforager-core/src/resource.rs:1016-1093 | the same for a coupled claim, the shared-stage check included |
| `ByteCreditRefusals.CoupledReply` | product/crates/fforager-core/src/resource.rs:1016-1093 | the reply to a coupled claim is the first demand that goes over among the input's three, the output's three on top of it, and both together on a shared stage; empty parts and an unrepresentable total come first, exhausted numbers last |
| `ByteCredits.CoupledRefinesSequential` | product/crates/fforager-core/src/resource.rs:886-1110 | two single claims in sequence succeed iff the coupled claim does and two numbers are left; they charge every sum alike; a refused coupled claim changes nothing |
| `ByteCredits.TransferKeeps` | product/crates/fforager-core/src/resource.rs:1112-1179 | a transfer keeps every bound; a refused one changes nothing |
| `ByteCredits.TransferMoves` | product/crates/fforager-core/src/resource.rs:1112-1179 | a transfer succeeds iff the component is untouched and fits its new owner, and shifts exactly that component between the two owners |
| `ByteCreditRefusals.TransferReply` | product/crates/fforager-core/src/resource.rs:1112-1179 | the reply to a transfer: unknown, released, part unknown, already spent, or the new owner's limit with exact occupancy; it never overflows, since the bytes moved are already counted |
| `ByteCreditRefusals.LiveDemandFits` | product/crates/fforager-core/src/resource.rs:1147-1179 | a live component together with everything another owner holds stays within the global sums |
| `ByteCredits.ConsumeKeeps` | product/crates/fforager-core/src/resource.rs:1181-1223 | consumption keeps every bound and never reports a violation |
| `ByteCredits.ConsumeSpends` | product/crates/fforager-core/src/resource.rs:1181-1223 | consumption succeeds iff within the component's remaining credit, and changes that component and its stage's tally, no occupancy |
| `ByteCredits.ReleaseKeeps` | product/crates/fforager-core/src/resource.rs:1225-1249 | a release succeeds iff the claim is live, and keeps every bound |
| `ByteCredits.ReleaseUndoesClaim` | product/crates/fforager-core/src/resource.rs:993-1249 | releasing a fresh single claim returns that claim and restores the ledger, apart from the used-up number |
| `ByteCredits.ReleaseUndoesCoupledClaim` | product/crates/fforager-core/src/resource.rs:1016-1249 | the same for a coupled claim |
| `ByteCredits.ReleasedOnlyOnce` | product/crates/fforager-core/src/resource.rs:1225-1370 | after an accepted release and any further history the claim can be neither released, consumed nor transferred again |
| `ByteCredits.AdvanceIffCovered` | product/crates/fforager-core/src/resource.rs:1275-1308 | a position is accepted iff the moved ledger still satisfies the position invariant and nothing moves back |
| `ByteCredits.AdvanceKeeps` | product/crates/fforager-core/src/resource.rs:1304-1308 | advancing keeps every bound; a refused advance changes nothing |
| `ByteCredits.ReachableIsBounded` | product/crates/fforager-core/src/resource.rs:836-1370 | in every reachable state in-use is the exact sum of live bytes, all global, owner and stage limits hold, nothing is over-consumed |
| `ByteCredits.InvPassesVerify` | product/crates/fforager-core/src/resource.rs:1310-1347 | a ledger within its bounds satisfies everything the self-check looks at |
| `ByteCredits.PositionsFollowConsumption` | product/crates/fforager-core/src/resource.rs:1181-1308 | over any history tallies equal the sum of accepted consumption, durable ≤ written ≤ received, received and written are covered by their stages' tallies, and no position moves back |
| `ByteCreditObjects.ByteCreditLedger.ComponentCount` | product/crates/fforager-core/src/resource.rs:825-834 | counts the live components exactly, or reports an overflow |
| `ByteCreditObjects.ByteCreditLedger.Measure` | product/crates/fforager-core/src/resource.rs:836-873 | the running sums, stopped at the first overflow, equal the exact occupancy |
| `ByteCreditObjects.ByteCreditLedger.CheckComponent` | product/crates/fforager-core/src/resource.rs:886-991 | checks global, owner and stage bounds in that order and reports the first one exceeded |
| `ByteCreditObjects.ByteCreditLedger.ClaimOne` | product/crates/fforager-core/src/resource.rs:993-1014 | the in-place claim has the specified reply and state |
| `ByteCreditObjects.ByteCreditLedger.ClaimBoth` | product/crates/fforager-core/src/resource.rs:1016-1093 | nothing is inserted until both components and their shared-stage sum have passed |
| `ByteCreditObjects.ByteCreditLedger.TransferComponent` | product/crates/fforager-core/src/resource.rs:1112-1145 | the in-place transfer has the specified reply and state |
| `ByteCreditObjects.ByteCreditLedger.ConsumeComponent` | product/crates/fforager-core/src/resource.rs:1181-1223 | the in-place consumption has the specified reply and state |
| `ByteCreditObjects.ByteCreditLedger.ReleaseClaim` | product/crates/fforager-core/src/resource.rs:1225-1249 | the in-place release has the specified reply and state |
| `ByteCreditObjects.ByteCreditLedger.AdvancePosition` | product/crates/fforager-core/src/resource.rs:1304-1308 | the in-place advance has the specified reply and state |
| `ByteCreditObjects.ByteCreditLedger.VerifyTotal` | product/crates/fforager-core/src/resource.rs:1311-1319 | adds up live bytes iff no component is overspent and the sum fits 64 bits, and returns the exact sum |
| `ByteCreditObjects.ByteCreditLedger.VerifyStages` | product/crates/fforager-core/src/resource.rs:1324-1332 | accepts iff every declared stage has a policy and is within it |
| `ByteCreditObjects.ByteCreditLedger.VerifyOwners` | product/crates/fforager-core/src/resource.rs:1333-1345 | accepts iff every owner of a live component is within the owner limits |
| `ByteCreditObjects.ByteCreditLedger.Verify` | product/crates/fforager-core/src/resource.rs:1310-1347 | the self-check accepts iff totals, position, stages and owners are all in order |
| `FfmpegLifecycles.CompletionPlanOk` | product/crates/fforager-core/src/lifecycle.rs:1095-1354 | a correlated completion is never refused by its phase: the refusing branch in diagnostics is unreachable |
| `FfmpegLifecycles.StepKeeps` | product/crates/fforager-core/src/lifecycle.rs:974-1427 | every input keeps the phase facts, a refused one changes nothing, generations never run out, and a correlated completion is accepted iff the trace has room |
| `FfmpegLifecycles.CompletionUsesUpWork` | product/crates/fforager-core/src/lifecycle.rs:1095-1354 | a rank never negative: each accepted completion lowers it, no other input raises it |
| `FfmpegLifecycles.RunKeepsWhole` | product/crates/fforager-core/src/lifecycle.rs:974-1427 | invariant, causal record and safety of every issued effect hold along every run |
| `FfmpegLifecycles.SupervisorIsSafe` | product/crates/fforager-core/src/lifecycle.rs:974-1427 | over every run: no release while a spawned child is unreaped, no stop, kill or reap after a reap, no validation after cancellation; exited means the five completions in order; cancelled is the only terminal state after a cancellation |
| `FfmpegOutcomes.TerminalIsTold` | product/crates/fforager-core/src/lifecycle.rs:974-1427 | over every run, from the trace alone: a terminal run is cancelled iff a cancel was accepted, failed iff none was and some completion was fatal (a failure that ended its attempts, a non-zero termination, an invalid output), exited iff none was and the milestones are the five in order; the reported failure is the one the trace shows |
| `FfmpegOutcomes.FactsAreTold` | product/crates/fforager-core/src/lifecycle.rs:974-1427 | over every run the supervisor's facts on cancellation, exit, spawn, reap, diagnostics and release are those of its trace |
| `FfmpegOutcomes.SuccessIsReachable` | product/crates/fforager-core/src/lifecycle.rs:974-1354 | whatever the limits, the seven inputs of a clean run are all accepted and end exited |
| `FfmpegOutcomes.SupervisorRefinesTrace` | product/crates/fforager-core/src/lifecycle.rs:974-1427 | over every run the reply to every input, accepted or refused, its next phase and the effect it issues are those of a reference that knows only the trace |
| `FfmpegLifecycles.EffectsAreBounded` | product/crates/fforager-core/src/lifecycle.rs:675-707 | every run issues at most 3 effects plus the four attempt limits, so generations never run out, and no attempt counter passes its limit |
| `FfmpegLifecycles.StepCounts` | product/crates/fforager-core/src/lifecycle.rs:1174-1354 | an accepted completion adds exactly one to the counter of its own effect; nothing else changes any counter |
| `FfmpegLifecycles.CountersNeverSaturate` | product/crates/fforager-core/src/lifecycle.rs:1174-1354 | over every run each counter is the exact number of accepted completions of its effect, and the outstanding effect's increment is exact: saturation is unreachable |
| `FfmpegObjects.FfmpegSupervisor.Begin` | product/crates/fforager-core/src/lifecycle.rs:974-985 | the mutating start is the specified step |
| `FfmpegObjects.FfmpegSupervisor.RequestCancellation` | product/crates/fforager-core/src/lifecycle.rs:992-1019 | the mutating cancellation is the specified step |
| `FfmpegObjects.FfmpegSupervisor.ObserveChildExit` | product/crates/fforager-core/src/lifecycle.rs:1029-1060 | the mutating exit observation is the specified step |
| `FfmpegObjects.FfmpegSupervisor.ExpireGracePeriod` | product/crates/fforager-core/src/lifecycle.rs:1067-1087 | the mutating grace expiry is the specified step |
| `FfmpegObjects.FfmpegSupervisor.CompleteEffect` | product/crates/fforager-core/src/lifecycle.rs:1095-1122 | only the exact pending request with a fitting outcome is dispatched, and the result is the specified step |
| `FfmpegObjects.FfmpegSupervisor.CompleteSpawn` | product/crates/fforager-core/src/lifecycle.rs:1124-1149 | settles a spawn outcome as planned |
| `FfmpegObjects.FfmpegSupervisor.CompleteGraceful` | product/crates/fforager-core/src/lifecycle.rs:1151-1172 | settles a graceful-stop outcome as planned |
| `FfmpegObjects.FfmpegSupervisor.CompleteForcedKill` | product/crates/fforager-core/src/lifecycle.rs:1174-1206 | settles a kill outcome as planned, attempts and give-up included |
| `FfmpegObjects.FfmpegSupervisor.CompleteReap` | product/crates/fforager-core/src/lifecycle.rs:1208-1242 | settles a reap outcome as planned, attempts and give-up included |
| `FfmpegObjects.FfmpegSupervisor.CompleteDiagnostics` | product/crates/fforager-core/src/lifecycle.rs:1244-1299 | settles a diagnostics outcome as planned |
| `FfmpegObjects.FfmpegSupervisor.CompleteOutputValidation` | product/crates/fforager-core/src/lifecycle.rs:1301-1321 | settles a validation outcome as planned |
| `FfmpegObjects.FfmpegSupervisor.CompleteRelease` | product/crates/fforager-core/src/lifecycle.rs:1323-1354 | settles a release outcome as planned |
| `StateMachines.ApplyKeeps` | product/crates/fforager-core/src/lifecycle.rs:2132-2470 | for any well-formed table every event keeps the pending/deferred/phase invariant and a rejected one changes nothing |
| `StateMachines.RunIsCorrelated` | product/crates/fforager-core/src/lifecycle.rs:2132-2470 | in every run no token settles twice, batches (restarts included) carry generations 1, 2, 3, …, and pending and recovery phases hold exactly with and without outstanding tokens |
| `StateMachines.ForeignOutcomeIsRejected` | product/crates/fforager-core/src/lifecycle.rs:2214-2359 | a stale, duplicate or foreign outcome is rejected and changes nothing |
| `TraceEngines.EngineRefinesTrace` | product/crates/fforager-core/src/lifecycle.rs:2132-2470 | over every run of every well-formed lifecycle an event is accepted iff a reference that knows only the trace accepts it, with the phase and effects of the reference; pending is exactly what the trace leaves open |
| `TraceEngines.LastOutcomeDecides` | product/crates/fforager-core/src/lifecycle.rs:2303-2359 | over every run the last outcome of a batch leads to recovery iff some effect of that generation failed or was cancelled, and to the target or its next batch iff every effect of the batch was acknowledged under that generation; before the last one the machine waits on |
| `TraceEngines.RefusalSaysWhy` | product/crates/fforager-core/src/lifecycle.rs:2214-2359 | a refused event is told whether the trace is full, generations are used up, the outcome is not an awaited one, or the event does not belong there |
| `TraceEngines.AcknowledgedIffNothingWrong` | product/crates/fforager-core/src/lifecycle.rs:2303-2359 | a settled batch was acknowledged as a whole iff nothing of its generation failed or was cancelled |
| `StateMachines.ReplayRebuilds` | product/crates/fforager-core/src/lifecycle.rs:2482-2496 | replaying the trace of any run rebuilds the same state, pending tokens, deferred effects and generation |
| `StateMachines.ReplayIsRun` | product/crates/fforager-core/src/lifecycle.rs:2482-2496 | whatever replay accepts is the trace of running its own events, and the machine rebuilt is that run's |
| `StateMachines.ReplayAcceptsExactlyTraces` | product/crates/fforager-core/src/lifecycle.rs:2482-2496 | replay accepts a record sequence iff some run produces it |
| `StateMachines.ComesToRest` | product/crates/fforager-core/src/lifecycle.rs:2170-2359 | a machine comes to rest only by an effect-free table move, or by acknowledging the last effect of its batch |
| `StateMachines.WellFormedKeepsPromise` | product/crates/fforager-core/src/lifecycle.rs:1916-2496 | correlation and replay together for every run of every fresh machine of a well-formed lifecycle |
| `WrapperLifecycles.EveryKindIsCorrelatedAndReplayable` | product/crates/fforager-core/src/lifecycle.rs:2851-3506 | every run of a fresh job, source, admission, live, sink, script-worker, plug-in or watcher machine settles each token at most once, numbers its batches without gaps, and is rebuilt by replaying its trace |
| `MoveLists.ListsBehave` | product/crates/fforager-core/src/lifecycle.rs:2170-2470 | a machine whose table a list of moves describes rests over every run only at listed states, accepts there exactly the listed requests, ends each one where the list says after acknowledging the listed effects in turn, and can reach every listed state |
| `WrapperRuns.EveryKindMovesAsListed` | product/crates/fforager-core/src/lifecycle.rs:2881-3506 | this holds of each of the eight kinds for its literal list of moves and effects |
| `StateMachineObjects.StateMachine.RecordTransition` | product/crates/fforager-core/src/lifecycle.rs:2132-2168 | records one transition with a fresh generation for a non-empty batch, or changes nothing when generations are exhausted |
| `StateMachineObjects.StateMachine.EnterState` | product/crates/fforager-core/src/lifecycle.rs:2170-2200 | goes to the next state directly or through a deferred batch, as specified |
| `StateMachineObjects.StateMachine.RestartDeferred` | product/crates/fforager-core/src/lifecycle.rs:2279-2301 | restarts the taken-out batch under a new generation, and puts it back on failure |
| `StateMachineObjects.StateMachine.CompleteDeferred` | product/crates/fforager-core/src/lifecycle.rs:2303-2359 | settles one outcome of the batch as specified, and puts the batch back on failure |
| `StateMachineObjects.StateMachine.Apply` | product/crates/fforager-core/src/lifecycle.rs:2377-2470 | the mutating engine has the specified reply and state for every event |
| `StateMachineObjects.StateMachine.Replay` | product/crates/fforager-core/src/lifecycle.rs:2482-2496 | the replay loop returns the specified machine or the first refusal |
| `CommitLifecycles.TableIsWellFormed` | product/crates/fforager-core/src/lifecycle.rs:3226-3388 | the commit table satisfies what the engine relies on |
| `CommitLifecycles.CommitIsCorrelatedAndReplayable` | product/crates/fforager-core/src/lifecycle.rs:3226-3388 | every run of a fresh commit machine is correlated and rebuilt by replaying its trace |
| `CommitLifecycles.CommitOrder` | product/crates/fforager-core/src/lifecycle.rs:3226-3388 | over every run acknowledged protocol effects are a prefix of the fifteen-step order, a durable state means exactly the steps up to it, and a reconciled machine ended with the acknowledged archive check |
| `CommitRuns.PhaseCompletes` | product/crates/fforager-core/src/lifecycle.rs:3226-3388 | however a run came to rest at a durable state short of reconciled, the request that belongs there and the acknowledgements of its effects are accepted and lead to the next durable state with exactly the steps up to it acknowledged |
| `CommitRuns.FullCommitReconciles` | product/crates/fforager-core/src/lifecycle.rs:3226-3388 | a fresh machine with room for 21 records carries out the whole commit and rests reconciled with all fifteen steps acknowledged |
| `CommitRuns.EveryPrefixIsReached` | product/crates/fforager-core/src/lifecycle.rs:3226-3388 | for every n up to fifteen some run has acknowledged exactly the first n steps |
| `CommitRuns.RestAcceptsExactly` | product/crates/fforager-core/src/lifecycle.rs:3226-3388 | over every run a resting machine with room accepts exactly the requests that belong to its state |
| `CommitRuns.CheckReturns` | product/crates/fforager-core/src/lifecycle.rs:3226-3388 | restarting at a durable state, or reconciling before it is cleaned, asks for the check of that state, and the acknowledged check returns to it |
| `CommitRuns.FailEndsInconsistent` | product/crates/fforager-core/src/lifecycle.rs:3226-3388 | failing at a durable state or while working preserves diagnostics and ends inconsistent |
| `CommitRuns.CancelEndsCancelled` | product/crates/fforager-core/src/lifecycle.rs:3226-3388 | cancelling there preserves diagnostics and drains in either order, then releases resources and ends cancelled |
| `CommitLifecycles.IrreversibleEffectsHappenOnce` | product/crates/fforager-core/src/lifecycle.rs:3226-3388 | renaming, archive insertion and removal of temporary state are each acknowledged at most once in any run |
| `CommitLifecycles.DurablePrefixNeverGoesBack` | product/crates/fforager-core/src/lifecycle.rs:3226-3388 | however a run goes on, its acknowledged protocol prefix only grows and a later durable state is never an earlier one |
| `CommitLifecycles.StepOnTrack` | product/crates/fforager-core/src/lifecycle.rs:2279-2470 | one event of any kind keeps progress in step with the state reached or aimed at |
| `ByteLifecycles.TableIsWellFormed` | product/crates/fforager-core/src/lifecycle.rs:2948-2989 | the byte table satisfies what the engine relies on |
| `ByteLifecycles.OnlyByteEffectsSubstantiate` | product/crates/fforager-core/src/lifecycle.rs:2948-2989 | a received, written or durable phase is entered only by acknowledging the byte effect that belongs to it |
| `ByteLifecycles.EventKeepsWorld` | product/crates/fforager-core/src/lifecycle.rs:2377-2390 | ordinary events never reach such a phase unproved, and change nothing when refused |
| `ByteLifecycles.AcknowledgementMovesBoth` | product/crates/fforager-core/src/lifecycle.rs:2069-2130 | a byte acknowledgement advances lifecycle and broker position together or neither, and only with the bound broker |
| `ByteRuns.AcknowledgementIsExact` | product/crates/fforager-core/src/lifecycle.rs:2069-2130 | the complete reply to an acknowledgement in numbers: accepted iff the token is pending, the broker is the bound or the first one, the trace has room, only the component of the effect moves and grows (to equality of all three for a synchronization), and the result is ordered and covered by both tallies; every refusal has its error |
| `ByteRuns.RunCleanWorld` | product/crates/fforager-core/src/lifecycle.rs:2069-2130 | the side condition of that reply holds along every run |
| `ByteRuns.DurableIsReached` | product/crates/fforager-core/src/lifecycle.rs:2499-2543 | from an empty or received machine with consumed bytes to show, three exchanges reach the durable phase with all three positions there |
| `ByteRuns.DurableFromFresh` | product/crates/fforager-core/src/lifecycle.rs:2948-2989 | for every contract under which n bytes fit both stages, a fresh machine and broker reach the durable phase with n bytes durable |
| `ByteRuns.PassThroughCounts` | product/crates/fforager-core/src/resource.rs:993-1249 | claiming, consuming and releasing n bytes on an idle ledger adds n to the stage's tally and leaves the ledger idle |
| `ByteRuns.BytesMoveAsListed` | product/crates/fforager-core/src/lifecycle.rs:2948-2989 | the engine on the byte table does from rest to rest exactly what its literal list of moves says |
| `ByteLifecycles.PhasesAreSubstantiated` | product/crates/fforager-core/src/lifecycle.rs:2499-2543 | over every run of a machine that alone moves its broker's position, resting at a byte phase means the position proves it; durable means durable = written = received > 0 |
| `ByteLifecycles.RestoredIsSubstantiated` | product/crates/fforager-core/src/lifecycle.rs:1972-2014 | restoration succeeds iff the generation is non-zero and the position proves the phase, and the guarantees hold from there |
| `ByteLifecycles.FreshWorldInv` | product/crates/fforager-core/src/lifecycle.rs:1916-1930 | a fresh machine beside sound brokers satisfies the coupling invariant |
| `ByteLifecycleObjects.ByteDurabilityMachine.ApplyEvent` | product/crates/fforager-core/src/lifecycle.rs:2377-2390 | an unauthorized byte acknowledgement gets its own error and changes nothing; every other event has the engine's reply and state, and the authorization is used up |
| `ByteLifecycleObjects.ByteDurabilityMachine.VerifyIdentity` | product/crates/fforager-core/src/lifecycle.rs:2120-2130 | accepts iff no broker is bound yet or the given one is, with the specified error otherwise |
| `ByteLifecycleObjects.ByteDurabilityMachine.AcknowledgeEffect` | product/crates/fforager-core/src/lifecycle.rs:2069-2118 | on the mutable machine and ledger the reply, each error included, and the new state are exactly those of the specified acknowledgement; the broker is bound iff it succeeds |
| `SourceGraphs.Explore` | product/crates/fforager-contracts/src/graph.rs:468-494 | one search either names a node on a cycle or extends the finished set so that every finished node's targets finished before it |
| `SourceGraphs.ValidateRelationshipCycles` | product/crates/fforager-contracts/src/graph.rs:447-497 | accepts iff the containing, embedding, overlaying and continuation edges have no cycle; a rejection names a node on one |
| `SourceGraphs.Enter` | product/crates/fforager-contracts/src/graph.rs:478-491 | a node taken from the stack unvisited is never on the current path, so the second visiting check cannot fire, and entering it keeps the search invariant |
| `SourceGraphs.Walk` | product/crates/fforager-contracts/src/graph.rs:676-703 | the bounded walk ends iff there is no chain longer than the budget, and otherwise reports a true revisit or a true excess |
| `SourceGraphs.ValidateRedirects` | product/crates/fforager-contracts/src/graph.rs:641-705 | accepts iff overlays leave redirect nodes, at most one each, and no redirect chain exceeds the budget; reported cycles, excesses and ambiguities are real |
| `SourceGraphs.ValidateProvenance` | product/crates/fforager-contracts/src/graph.rs:707-739 | accepts iff no chain of parents exceeds the budget; reported cycles and excesses are real |
| `SourceGraphs.ValidateRootsAndParents` | product/crates/fforager-contracts/src/graph.rs:356-385 | accepts iff roots are known and named once, parents known, and provenance within budget |
| `SourceGraphs.ValidateSizes` | product/crates/fforager-contracts/src/graph.rs:305-325 | accepts iff the schema is in range and every collection within its bound |
| `SourceGraphs.ValidateNode` | product/crates/fforager-contracts/src/graph.rs:547-640 | accepts iff texts, identity count and extensions are in order and no identity was used before |
| `SourceGraphs.CollectNodes` | product/crates/fforager-contracts/src/graph.rs:327-354 | collects the nodes by id iff ids, entity identities and canonical sources are all unique and every node's fields in order |
| `SourceGraphs.ValidateEdges` | product/crates/fforager-contracts/src/graph.rs:387-413 | accepts iff edge ids are distinct and both ends known |
| `SourceGraphs.ValidateContinuations` | product/crates/fforager-contracts/src/graph.rs:499-533 | accepts iff continuation ids are distinct, owners known, tokens short enough and extensions in order |
| `SourceGraphs.Validate` | product/crates/fforager-contracts/src/graph.rs:294-302 | accepts iff all these conditions hold together, acyclicity included |
| `Framing.PushProgress` | product/crates/fforager-contracts/src/framing.rs:92-130 | a push on non-empty input consumes at least one byte, consumes all of it unless it completes a frame, and never buffers more than the limit |
| `Framing.FeedIsParse` | product/crates/fforager-contracts/src/framing.rs:92-130 | feeding a decoder equals parsing its buffered bytes followed by the input |
| `Framing.ParseAppend` | product/crates/fforager-contracts/src/framing.rs:92-130 | parsing resumes from the left-over bytes and stops for good at the first error |
| `Framing.ChunkingDoesNotMatter` | product/crates/fforager-contracts/src/framing.rs:92-130 | however a stream is split, the frames and the first error are those of the whole stream, and the tail is what stays buffered |
| `Framing.RoundTrip` | product/crates/fforager-contracts/src/framing.rs:92-150 | length-prefixed frames within the limit, split in any way, decode to exactly those frames and end cleanly |
| `Framing.ParseIsEncoding` | product/crates/fforager-contracts/src/framing.rs:92-130 | every stream is the encoding of exactly the frames it decodes to, followed by an unfinished frame, or by the offending header if there was an error |
| `Framing.FinishOnBoundary` | product/crates/fforager-contracts/src/framing.rs:92-150 | however a stream is split, it decodes without error and finishes iff it is the encoding of some frames within the limit, and those are the frames decoded |
| `FramingObjects.FrameDecoder.Push` | product/crates/fforager-contracts/src/framing.rs:92-130 | the in-place decoder has the specified reply and state |
| `FramingObjects.FrameDecoder.End` | product/crates/fforager-contracts/src/framing.rs:137-150 | the in-place finish has the specified reply and resets |
| `FramingObjects.FrameDecoder.Reset` | product/crates/fforager-contracts/src/framing.rs:307-312 | the decoder is as new |
| `Journals.ScanJournal` | product/crates/fforager-contracts/src/storage.rs:403-485 | the scan loop returns the length of a trustworthy prefix with its next sequence number and last hash, and names the first fault after it |
| `Journals.FaultIffUntrustworthy` | product/crates/fforager-contracts/src/storage.rs:417-478 | the in-order checks find no fault iff the record is complete, checksummed, valid, of this job, next in number, linked and commit-legal |
| `Journals.FaultNamesDefect` | product/crates/fforager-contracts/src/storage.rs:403-519 | each fault names the defect of the first record not counted and implies that nothing checked before it is amiss; a commit record is at fault iff the steps so far followed by it are no initial part of the order |
| `Journals.ScanIsLongest` | product/crates/fforager-contracts/src/storage.rs:403-485 | no longer prefix of the journal is trustworthy |
| `Journals.ScanIsUnique` | product/crates/fforager-contracts/src/storage.rs:403-485 | the description determines the scan result |
| `Journals.SuffixIsIrrelevant` | product/crates/fforager-contracts/src/storage.rs:403-485 | nothing after the first fault changes the result |
| `Journals.CommitStepsInOrder` | product/crates/fforager-contracts/src/storage.rs:487-519 | the commit records of a trustworthy prefix are an initial part of prepared, renamed, archived, cleaned |
| `Journals.ScannedCommitOrder` | product/crates/fforager-contracts/src/storage.rs:487-519 | in the scanned prefix each commit step occurs at most once and in that order |
| `ArchiveKeys.DecimalReadsBack` | product/crates/fforager-contracts/src/archive.rs:163-173 | the printed rule version reads back as the same number |
| `ArchiveKeys.SplitOnce` | product/crates/fforager-contracts/src/archive.rs:163-173 | a separator that the first part does not contain splits a text in one way only |
| `ArchiveKeys.CanonicalKeysIdentify` | product/crates/fforager-contracts/src/archive.rs:144-173 | two valid keys print alike iff they agree on namespace, identity level and id, rule version and extractor |
| `ArchiveKeys.CanonicalText` | product/crates/fforager-contracts/src/archive.rs:144-173 | a key has canonical text iff schema, rule version and extractor are in order, and the text is the version without leading zeros, the literal names of namespace and level, extractor and identifier, joined by bars |
| `ArchiveKeys.PlainIsDecimal` | product/crates/fforager-contracts/src/archive.rs:163-173 | a number without leading zeros is written in one way only |

## Left out

- The legacy FFmpeg and filesystem-capability lifecycles, which bypass the wrapper, and the branch of `apply` that serves only them (lifecycle.rs:2400-2470): they add cases, not depth.
- Restoring a machine of another kind from a stored state; only byte-durability restoration is modelled.
- Replay of byte-durability traces, which the program refuses on purpose; the byte machine is modelled without a replay operation.
- Recovery decisions (`decide_recovery`, `apply_recovery_action`): a finite observation space that adds only case tables.
- Reference counting, interior mutability, panics and unwinding: live handles are explicit sets, and dropping a handle is an explicit operation.
- The handle layer of byte credit (lease drop, attribution and required-loss reports): the ledger below it is modelled.
- The contents of extension maps: nodes and continuations carry whether theirs validate.
- The unknown-parent branch inside the provenance walk: parents have been looked up before the walk starts.
- Node, edge, entity and continuation identifiers are naturals; only their identity and order are used.
- Ordered maps keyed by claim or grant number are walked by counting through the numbers issued so far.
- `JournalRecord::validate`, hashes and checksums: a record carries whether it validates, its digest and its link as opaque values.
- JSON encoding, SHA-256 and the typed decoders built on the frame decoder.
- Texts of archive keys and graph nodes are ASCII, so lengths in bytes and in characters agree.
- Policy fields of the contracts that have a single possible value.
- Launcher, worker and watcher binaries, command line, process protocol, FFmpeg argument contracts, diagnostics and the engine façade.
