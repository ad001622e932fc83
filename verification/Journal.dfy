/**
 The journal prefix scan: the longest trustworthy prefix, whatever follows it.

 Framing, checksums and record hashes are observations of the persistence adapter; whether a
 record's own fields are in order is recorded as its `defect`, if any.
 */
module Journals {
  import opened Wrappers

  datatype CommitState = Collecting | Prepared | Renamed | Archived | Cleaned

  /** Payload kinds; only the four commit kinds take part in the commit order. */
  datatype Payload = CommitPrepared | CommitRenamed | ArchiveCommitted | CleanupCompleted | OtherPayload(kind: string)

  datatype Entry = Entry(jobId: string, sequence: nat, priorHash: Option<string>, payload: Payload, defect: Option<nat>)

  datatype Observed = Observed(entry: Entry, hash: string, frameComplete: bool, checksumValid: bool)

  datatype Fault =
    | Torn(index: nat)
    | ChecksumInvalid(index: nat)
    | SequenceZero(index: nat)
    | InvalidRecord(index: nat, defect: nat)
    | JobIdentityMismatch(index: nat, expectedJob: string, observedJob: string)
    | DuplicateSequence(index: nat, expected: nat, observed: nat)
    | ReorderedSequence(index: nat, expected: nat, observed: nat)
    | PriorHashMismatch(index: nat)
    | RecordHashMissing(index: nat)
    | InvalidCommitTransition(index: nat, durablePrefix: CommitState, payload: Payload)

  datatype Scan = Scan(validRecordCount: nat, nextSequence: Option<nat>, lastHash: Option<string>,
                       stoppedBy: Option<Fault>)

  /** The commit state a payload requires and the one it establishes. */
  function AdvanceCommit(state: CommitState, payload: Payload): Option<CommitState> {
    match payload
    case CommitPrepared => if state.Collecting? then Some(Prepared) else None
    case CommitRenamed => if state.Prepared? then Some(Renamed) else None
    case ArchiveCommitted => if state.Renamed? then Some(Archived) else None
    case CleanupCompleted => if state.Archived? then Some(Cleaned) else None
    case OtherPayload(_) => Some(state)
  }

  // ---------------------------------------------------------------------------
  // What makes a record trustworthy

  /** Commit state after the given records, ignoring steps that are out of order. */
  function CommitAfter(records: seq<Observed>): CommitState {
    if records == [] then Collecting
    else
      var before := CommitAfter(records[..|records| - 1]);
      var next := AdvanceCommit(before, records[|records| - 1].entry.payload);
      if next.Some? then next.value else before
  }

  predicate Trustworthy(job: string, records: seq<Observed>, i: nat)
    requires i < |records|
  {
    var r := records[i];
    && r.frameComplete && r.checksumValid
    && r.entry.jobId == job
    && r.entry.defect.None?
    && r.entry.sequence == i + 1
    && r.entry.priorHash == (if i == 0 then None else Some(records[i - 1].hash))
    && r.hash != ""
    && AdvanceCommit(CommitAfter(records[..i]), r.entry.payload).Some?
  }

  ghost predicate TrustworthyPrefix(job: string, records: seq<Observed>, k: nat) {
    k <= |records| && forall i :: 0 <= i < k ==> Trustworthy(job, records, i)
  }

  /** Sequence numbers are 64-bit. */
  ghost predicate WellTyped(records: seq<Observed>) {
    forall i :: 0 <= i < |records| ==> records[i].entry.sequence <= U64_MAX
  }

  /** The first check a record fails, given what the scan knows before it. */
  function FaultOf(job: string, r: Observed, index: nat, expected: Option<nat>, lastHash: Option<string>,
                   state: CommitState)
    : Option<Fault>
  {
    if !r.frameComplete then Some(Torn(index))
    else if !r.checksumValid then Some(ChecksumInvalid(index))
    else if r.entry.jobId != job then Some(JobIdentityMismatch(index, job, r.entry.jobId))
    else if r.entry.sequence == 0 then Some(SequenceZero(index))
    else if r.entry.defect.Some? then Some(InvalidRecord(index, r.entry.defect.value))
    else if expected.None? then Some(ReorderedSequence(index, U64_MAX, r.entry.sequence))
    else if r.entry.sequence < expected.value then Some(DuplicateSequence(index, expected.value, r.entry.sequence))
    else if r.entry.sequence > expected.value then Some(ReorderedSequence(index, expected.value, r.entry.sequence))
    else if r.entry.priorHash != lastHash then Some(PriorHashMismatch(index))
    else if r.hash == "" then Some(RecordHashMissing(index))
    else if AdvanceCommit(state, r.entry.payload).None? then
      Some(InvalidCommitTransition(index, state, r.entry.payload))
    else None
  }

  function SequenceAfter(k: nat): Option<nat> {
    if k < U64_MAX then Some(k + 1) else None
  }

  function HashBefore(records: seq<Observed>, k: nat): Option<string>
    requires k <= |records|
  {
    if k == 0 then None else Some(records[k - 1].hash)
  }

  lemma FaultIffUntrustworthy(job: string, records: seq<Observed>, i: nat)
    requires i < |records| && records[i].entry.sequence <= U64_MAX
    ensures FaultOf(job, records[i], i, SequenceAfter(i), HashBefore(records, i), CommitAfter(records[..i])).None? <==>
              Trustworthy(job, records, i)
  {
  }

  // ---------------------------------------------------------------------------
  // The scan

  /** `scan` describes the longest trustworthy prefix and names the first fault after it. */
  ghost predicate Describes(job: string, records: seq<Observed>, scan: Scan) {
    var k := scan.validRecordCount;
    && TrustworthyPrefix(job, records, k)
    && scan.nextSequence == SequenceAfter(k)
    && scan.lastHash == HashBefore(records, k)
    && if k == |records| then scan.stoppedBy.None?
       else
         && scan.stoppedBy.Some?
         && scan.stoppedBy == FaultOf(job, records[k], k, SequenceAfter(k), HashBefore(records, k),
                                      CommitAfter(records[..k]))
  }

  method ScanJournal(job: string, records: seq<Observed>) returns (scan: Scan)
    requires WellTyped(records)
    ensures Describes(job, records, scan)
  {
    var expected: Option<nat> := Some(1);
    var lastHash: Option<string> := None;
    var valid := 0;
    var durablePrefix := Collecting;
    for index := 0 to |records|
      invariant valid == index && expected == SequenceAfter(index) && lastHash == HashBefore(records, index)
      invariant durablePrefix == CommitAfter(records[..index])
      invariant TrustworthyPrefix(job, records, index)
    {
      var observed := records[index];
      FaultIffUntrustworthy(job, records, index);
      var fault := FaultOf(job, observed, index, expected, lastHash, durablePrefix);
      if fault.Some? {
        return Scan(valid, expected, lastHash, fault);
      }
      valid := valid + 1;
      expected := if observed.entry.sequence < U64_MAX then Some(observed.entry.sequence + 1) else None;
      lastHash := Some(observed.hash);
      var next := AdvanceCommit(durablePrefix, observed.entry.payload);
      assert records[..index + 1][..index] == records[..index];
      if next.Some? {
        durablePrefix := next.value;
      }
    }
    scan := Scan(valid, expected, lastHash, None);
  }

  /** The scanned count is the largest trustworthy prefix: no longer one exists. */
  lemma ScanIsLongest(job: string, records: seq<Observed>, scan: Scan, k: nat)
    requires WellTyped(records) && Describes(job, records, scan) && TrustworthyPrefix(job, records, k)
    ensures k <= scan.validRecordCount
  {
    var n := scan.validRecordCount;
    if n < |records| {
      FaultIffUntrustworthy(job, records, n);
      assert !Trustworthy(job, records, n);
    }
  }

  /** There is only one such description, so the scan is a function of the journal. */
  lemma ScanIsUnique(job: string, records: seq<Observed>, a: Scan, b: Scan)
    requires WellTyped(records) && Describes(job, records, a) && Describes(job, records, b)
    ensures a == b
  {
    ScanIsLongest(job, records, a, b.validRecordCount);
    ScanIsLongest(job, records, b, a.validRecordCount);
  }

  /** The record at `k` is read whole, checksummed, of this job, numbered, and without a defect of its own. */
  predicate Readable(job: string, r: Observed) {
    r.frameComplete && r.checksumValid && r.entry.jobId == job && r.entry.sequence > 0 && r.entry.defect.None?
  }

  /** The record follows the prefix before it by number and hash. */
  predicate Continues(job: string, records: seq<Observed>, k: nat)
    requires k < |records|
  {
    && Readable(job, records[k]) && records[k].entry.sequence == k + 1
    && (if k == 0 then records[k].entry.priorHash.None? else records[k].entry.priorHash == Some(records[k - 1].hash))
  }

  /**
   What each fault says of the record that stopped the scan, the record after the counted
   prefix: its defect, and that nothing looked at before it is amiss. A commit record is at
   fault exactly when the steps so far followed by it are no initial part of the order.
   */
  lemma FaultNamesDefect(job: string, records: seq<Observed>, scan: Scan)
    requires WellTyped(records) && Describes(job, records, scan) && scan.stoppedBy.Some?
    ensures var k := scan.validRecordCount;
            && k < |records|
            && var r := records[k];
            match scan.stoppedBy.value
            case Torn(i) => i == k && !r.frameComplete
            case ChecksumInvalid(i) => i == k && r.frameComplete && !r.checksumValid
            case JobIdentityMismatch(i, expected, observed) =>
              i == k && r.frameComplete && r.checksumValid && expected == job && observed == r.entry.jobId != job
            case SequenceZero(i) =>
              i == k && r.frameComplete && r.checksumValid && r.entry.jobId == job && r.entry.sequence == 0
            case InvalidRecord(i, defect) =>
              && i == k && r.frameComplete && r.checksumValid && r.entry.jobId == job && r.entry.sequence > 0
              && r.entry.defect == Some(defect)
            case DuplicateSequence(i, expected, observed) =>
              i == k && Readable(job, r) && k < U64_MAX && expected == k + 1 && observed == r.entry.sequence < k + 1
            case ReorderedSequence(i, expected, observed) =>
              && i == k && Readable(job, r) && observed == r.entry.sequence
              && if k < U64_MAX then expected == k + 1 < observed else expected == U64_MAX
            case PriorHashMismatch(i) =>
              && i == k && Readable(job, r) && r.entry.sequence == k + 1 && !Continues(job, records, k)
            case RecordHashMissing(i) => i == k && Continues(job, records, k) && r.hash == ""
            case InvalidCommitTransition(i, done, payload) =>
              && i == k && Continues(job, records, k) && r.hash != "" && payload == r.entry.payload
              && COMMIT_ORDER[..StepsDone(done)] == CommitSteps(records[..k])
              && !payload.OtherPayload? && !(CommitSteps(records[..k]) + [payload] <= COMMIT_ORDER)
  {
    var k := scan.validRecordCount;
    CommitStepsInOrder(job, records, k);
    hide CommitSteps, CommitAfter, TrustworthyPrefix;
    if scan.stoppedBy.value.InvalidCommitTransition? {
      StepOutOfOrder(CommitAfter(records[..k]), records[k].entry.payload);
    }
  }

  lemma StepOutOfOrder(state: CommitState, payload: Payload)
    requires AdvanceCommit(state, payload).None?
    ensures !payload.OtherPayload? && !(COMMIT_ORDER[..StepsDone(state)] + [payload] <= COMMIT_ORDER)
  {
    var n := StepsDone(state);
    assert (COMMIT_ORDER[..n] + [payload])[n] == payload;
  }

  /** Nothing after the first fault matters: any journal sharing the records up to it scans the same. */
  lemma SuffixIsIrrelevant(job: string, records: seq<Observed>, others: seq<Observed>, scan: Scan)
    requires Describes(job, records, scan) && scan.stoppedBy.Some?
    requires scan.validRecordCount < |others|
    requires others[..scan.validRecordCount + 1] == records[..scan.validRecordCount + 1]
    ensures Describes(job, others, scan)
  {
    var k := scan.validRecordCount;
    forall i | 0 <= i <= k ensures others[i] == records[i] && others[..i] == records[..i] {
      assert others[..k + 1][i] == records[..k + 1][i];
      assert others[..k + 1][..i] == others[..i] && records[..k + 1][..i] == records[..i];
    }
    forall i | 0 <= i < k ensures Trustworthy(job, others, i) {
      assert Trustworthy(job, records, i);
    }
  }

  // ---------------------------------------------------------------------------
  // Commit order in a trustworthy prefix

  const COMMIT_ORDER: seq<Payload> := [CommitPrepared, CommitRenamed, ArchiveCommitted, CleanupCompleted]

  function CommitSteps(records: seq<Observed>): seq<Payload> {
    if records == [] then []
    else
      var last := records[|records| - 1].entry.payload;
      CommitSteps(records[..|records| - 1]) + if last.OtherPayload? then [] else [last]
  }

  function StepsDone(state: CommitState): nat {
    match state
    case Collecting => 0 case Prepared => 1 case Renamed => 2 case Archived => 3 case Cleaned => 4
  }

  /** The commit records of a trustworthy prefix are an initial part of the order, each at most once. */
  lemma {:induction false} CommitStepsInOrder(job: string, records: seq<Observed>, k: nat)
    requires TrustworthyPrefix(job, records, k)
    ensures StepsDone(CommitAfter(records[..k])) <= |COMMIT_ORDER|
    ensures CommitSteps(records[..k]) == COMMIT_ORDER[..StepsDone(CommitAfter(records[..k]))]
  {
    if k == 0 {
      assert records[..0] == [] && COMMIT_ORDER[..0] == [];
    } else {
      CommitStepsInOrder(job, records, k - 1);
      assert Trustworthy(job, records, k - 1);
      assert records[..k][..k - 1] == records[..k - 1];
      NextStep(CommitAfter(records[..k - 1]), records[k - 1].entry.payload);
    }
  }

  lemma NextStep(state: CommitState, payload: Payload)
    requires AdvanceCommit(state, payload).Some?
    ensures COMMIT_ORDER[..StepsDone(AdvanceCommit(state, payload).value)]
         == COMMIT_ORDER[..StepsDone(state)] + if payload.OtherPayload? then [] else [payload]
  {
  }

  /** In the scanned prefix each commit step occurs at most once, and in order. */
  lemma ScannedCommitOrder(job: string, records: seq<Observed>, scan: Scan)
    requires Describes(job, records, scan)
    ensures CommitSteps(records[..scan.validRecordCount]) <= COMMIT_ORDER
  {
    CommitStepsInOrder(job, records, scan.validRecordCount);
  }
}
