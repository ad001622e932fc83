/**
 The 13-dimensional resource claim and the admission contract built on it.
 */
module ResourceVectors {
  import opened Wrappers

  datatype ResourceVector = ResourceVector(
    metadataRequests: nat,
    mediaRequests: nat,
    memoryBytes: nat,
    diskReadBytesInFlight: nat,
    diskWriteBytesInFlight: nat,
    openHandles: nat,
    cpuLightSlots: nat,
    cpuHeavySlots: nat,
    javascriptWorkers: nat,
    ffmpegProcesses: nat,
    ffmpegCpuThreads: nat,
    archiveWriterSlots: nat,
    sinkBytes: nat)

  const ZERO := ResourceVector(0, 0, 0, 0, 0, 0, 0, 0, 0, 0, 0, 0, 0)

  /** Every dimension is within the width the program stores it in. */
  predicate Representable(v: ResourceVector) {
    FitsWithin(v, ResourceVector(
                 U32_MAX, U32_MAX, U64_MAX, U64_MAX, U64_MAX, U32_MAX, U32_MAX,
                 U32_MAX, U32_MAX, U32_MAX, U32_MAX, U32_MAX, U64_MAX))
  }

  predicate FitsWithin(v: ResourceVector, capacity: ResourceVector) {
    && v.metadataRequests <= capacity.metadataRequests
    && v.mediaRequests <= capacity.mediaRequests
    && v.memoryBytes <= capacity.memoryBytes
    && v.diskReadBytesInFlight <= capacity.diskReadBytesInFlight
    && v.diskWriteBytesInFlight <= capacity.diskWriteBytesInFlight
    && v.openHandles <= capacity.openHandles
    && v.cpuLightSlots <= capacity.cpuLightSlots
    && v.cpuHeavySlots <= capacity.cpuHeavySlots
    && v.javascriptWorkers <= capacity.javascriptWorkers
    && v.ffmpegProcesses <= capacity.ffmpegProcesses
    && v.ffmpegCpuThreads <= capacity.ffmpegCpuThreads
    && v.archiveWriterSlots <= capacity.archiveWriterSlots
    && v.sinkBytes <= capacity.sinkBytes
  }

  /** Exact component-wise sum, before any width check. */
  function Plus(a: ResourceVector, b: ResourceVector): ResourceVector {
    ResourceVector(
      a.metadataRequests + b.metadataRequests,
      a.mediaRequests + b.mediaRequests,
      a.memoryBytes + b.memoryBytes,
      a.diskReadBytesInFlight + b.diskReadBytesInFlight,
      a.diskWriteBytesInFlight + b.diskWriteBytesInFlight,
      a.openHandles + b.openHandles,
      a.cpuLightSlots + b.cpuLightSlots,
      a.cpuHeavySlots + b.cpuHeavySlots,
      a.javascriptWorkers + b.javascriptWorkers,
      a.ffmpegProcesses + b.ffmpegProcesses,
      a.ffmpegCpuThreads + b.ffmpegCpuThreads,
      a.archiveWriterSlots + b.archiveWriterSlots,
      a.sinkBytes + b.sinkBytes)
  }

  function Minus(a: ResourceVector, b: ResourceVector): (r: ResourceVector)
    requires FitsWithin(b, a)
    ensures Plus(r, b) == a
  {
    ResourceVector(
      a.metadataRequests - b.metadataRequests,
      a.mediaRequests - b.mediaRequests,
      a.memoryBytes - b.memoryBytes,
      a.diskReadBytesInFlight - b.diskReadBytesInFlight,
      a.diskWriteBytesInFlight - b.diskWriteBytesInFlight,
      a.openHandles - b.openHandles,
      a.cpuLightSlots - b.cpuLightSlots,
      a.cpuHeavySlots - b.cpuHeavySlots,
      a.javascriptWorkers - b.javascriptWorkers,
      a.ffmpegProcesses - b.ffmpegProcesses,
      a.ffmpegCpuThreads - b.ffmpegCpuThreads,
      a.archiveWriterSlots - b.archiveWriterSlots,
      a.sinkBytes - b.sinkBytes)
  }

  /** Checked addition: absent as soon as one dimension would wrap. */
  function CheckedAdd(a: ResourceVector, b: ResourceVector): Option<ResourceVector> {
    if Representable(Plus(a, b)) then Some(Plus(a, b)) else None
  }

  /** Checked subtraction: absent as soon as one dimension would underflow. */
  function CheckedSub(a: ResourceVector, b: ResourceVector): Option<ResourceVector> {
    if FitsWithin(b, a) then Some(Minus(a, b)) else None
  }

  /** The four variable-size dimensions, absent when their `u64` sum wraps. */
  function DeclaredVariableBytes(v: ResourceVector): Option<nat> {
    var total := v.memoryBytes + v.diskReadBytesInFlight + v.diskWriteBytesInFlight + v.sinkBytes;
    if total <= U64_MAX then Some(total) else None
  }

  lemma PlusRotates(a: ResourceVector, b: ResourceVector, c: ResourceVector)
    ensures Plus(Plus(a, b), c) == Plus(Plus(a, c), b)
  {
  }

  lemma PlusCancels(a: ResourceVector, b: ResourceVector, c: ResourceVector)
    requires Plus(a, c) == Plus(b, c)
    ensures a == b
  {
  }

  lemma PlusGrows(a: ResourceVector, b: ResourceVector)
    ensures FitsWithin(a, Plus(a, b)) && FitsWithin(b, Plus(a, b))
  {
  }

  lemma FitsTransitive(a: ResourceVector, b: ResourceVector, c: ResourceVector)
    requires FitsWithin(a, b) && FitsWithin(b, c)
    ensures FitsWithin(a, c)
  {
  }

  const RESOURCE_VECTOR_SCHEMA_ID := "ff.resource-vector@1"
  const RESOURCE_CONTRACT_VERSION := SchemaVersion(1, 0)

  datatype ResourceContract = ResourceContract(
    schemaId: string,
    version: SchemaVersion,
    capacity: ResourceVector,
    maxActiveGrants: nat,
    maxActivePerOwner: nat,
    maxWaiterItems: nat,
    maxWaiterDeclaredVariableBytes: nat)

  datatype ResourceContractError =
    | SchemaIdMismatch
    | UnsupportedVersion(version: SchemaVersion)
    | ZeroActiveGrantLimit
    | InvalidOwnerCeiling

  function ValidateContract(contract: ResourceContract): Result<(), ResourceContractError> {
    if contract.schemaId != RESOURCE_VECTOR_SCHEMA_ID then Err(SchemaIdMismatch)
    else if contract.version != RESOURCE_CONTRACT_VERSION then Err(UnsupportedVersion(contract.version))
    else if contract.maxActiveGrants == 0 then Err(ZeroActiveGrantLimit)
    else if contract.maxActivePerOwner == 0 || contract.maxActivePerOwner > contract.maxActiveGrants then
      Err(InvalidOwnerCeiling)
    else Ok(())
  }
}
