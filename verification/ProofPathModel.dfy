/**
  The ProofPath durable ledger (proofpath_durable.rs): a hash-chained, idempotent append log that
  poisons itself after an ambiguous storage failure and is rebuilt by replaying the whole WAL.
  SHA-256 and the CBOR encoding are parameters; nothing is assumed of them except that digests are
  well-formed references.
 */
module ProofPathModel {
  import opened Basics
  import opened Text
  import opened Wal

  type Bytes = seq<bv8>

  const RECORD_SCHEMA := "liminaldb.proofpath-durable-record.v0.1"
  const DURABLE_PROFILE := "org.liminaldb.proofpath-durable-ledger.v0.1"
  const PRODUCER_REPOSITORY := "safal207/ProofPath"
  const CAPABILITY_ID := "proofpath.scig.v0.1"
  const CAPABILITY_COMMIT := "685d50e256a5125a21f4c4584b326411caaa64ad"
  const CONSUMER_REPOSITORY := "safal207/LiminalDB"
  const IMPORT_COMMIT := "00580ff097dee61b45ad3c8a3c36ae5f548f572d"
  const CONTRACT_BLOB := "fd733971aaae089df770062bcf7f2c2d6d19ca1d"
  const PERSISTENCE_SCOPE := "local_test_only"
  const RECORD_KIND := "proofpath.scig.verification.observed"

  datatype Input = Input(
    logicalOperationId: string,
    sourceEventBytes: Bytes,
    admissionReportBytes: Bytes,
    sourceReceiptRef: string,
    validTimeMs: nat,
    transactionTimeMs: nat,
    storageAdmissionRef: string)

  datatype Body = Body(
    schema: string,
    profile: string,
    sequence: nat,
    namespace: string,
    ingestionKey: string,
    logicalOperationId: string,
    sourceEventSha256: string,
    sourceReceiptRef: string,
    admissionReportSha256: string,
    producerRepository: string,
    producerCapabilityId: string,
    producerCapabilityCommit: string,
    consumerRepository: string,
    consumerImportCommit: string,
    consumerContractBlobSha: string,
    validTimeMs: nat,
    transactionTimeMs: nat,
    sourceEventBytes: Bytes,
    admissionReportBytes: Bytes,
    storageAdmissionRef: string,
    persistenceScope: string,
    storageWriteAuthorized: bool,
    executionAuthorized: bool,
    mutationAuthorized: bool,
    externalEffectsAuthorized: bool,
    previousRecordHash: Option<string>)

  datatype Record = Record(body: Body, recordHash: string)

  datatype Error =
    | Storage
    | Encoding
    | InvalidNamespace
    | InvalidLogicalOperationId
    | EmptySourceEvent
    | EmptyAdmissionReport
    | InvalidReference(what: string)
    | InvalidTemporalOrder
    | RecordProfileMismatch
    | NamespaceMismatch
    | SequenceMismatch(expected: nat, actual: nat)
    | PreviousRecordHashMismatch
    | RecordHashMismatch
    | IngestionKeyMismatch
    | SourceEventDigestMismatch
    | AdmissionReportDigestMismatch
    | ProducerCapabilityMismatch
    | ConsumerContractMismatch
    | AuthorityBoundaryViolation
    | DuplicateIngestionKey(key: string)
    | IdempotencyConflict
    | PoisonedAfterStorageFailure

  datatype Result<+T> = Ok(value: T) | Err(error: Error)

  /** SHA-256 of bytes and of a text's UTF-8 bytes, and CBOR of a record body (`None`: encoding error). */
  datatype Crypto = Crypto(sha: Bytes -> string, shaText: string -> string, cbor: Body -> Option<Bytes>)

  /** `sha256_ref` always prints a well-formed reference. */
  ghost predicate ProperRefs(h: Crypto) {
    (forall b :: ValidRef(h.sha(b))) && (forall t :: ValidRef(h.shaText(t)))
  }

  function Digest(h: Crypto, body: Body): Option<string> {
    match h.cbor(body)
    case None => None
    case Some(bytes) => Some(h.sha(bytes))
  }

  // ---- Input checks --------------------------------------------------------

  predicate IsAlphanumeric(c: char) {
    '0' <= c <= '9' || 'a' <= c <= 'z' || 'A' <= c <= 'Z'
  }

  function NormalizeNamespace(value: string): Result<string> {
    var trimmed := Trim(value);
    if 1 <= |trimmed| <= 64 && trimmed == value && trimmed != "." && trimmed != ".." &&
       (forall i :: 0 <= i < |trimmed| ==> IsAlphanumeric(trimmed[i]) || trimmed[i] in ".-_") &&
       IsAlphanumeric(trimmed[0])
    then Ok(value)
    else Err(InvalidNamespace)
  }

  function NormalizeInput(input: Input): Result<Input> {
    var logical := Trim(input.logicalOperationId);
    if logical == "" || logical != input.logicalOperationId then Err(InvalidLogicalOperationId)
    else if input.sourceEventBytes == [] then Err(EmptySourceEvent)
    else if input.admissionReportBytes == [] then Err(EmptyAdmissionReport)
    else if !ValidRef(input.sourceReceiptRef) then Err(InvalidReference("source_receipt_ref"))
    else if !ValidRef(input.storageAdmissionRef) then Err(InvalidReference("storage_admission_ref"))
    else if input.validTimeMs == 0 || input.transactionTimeMs < input.validTimeMs then Err(InvalidTemporalOrder)
    else Ok(input.(logicalOperationId := logical))
  }

  function KeySeed(namespace: string, operation: string): string {
    namespace + ['\0'] + operation + ['\0'] + RECORD_KIND
  }

  function IngestionKey(h: Crypto, namespace: string, operation: string): string {
    h.shaText(KeySeed(namespace, operation))
  }

  // ---- Ledger state -------------------------------------------------------

  datatype Ledger = Ledger(nextSequence: nat, head: Option<string>, records: map<string, Record>)

  const GENESIS: Ledger := Ledger(1, None, map[])

  function Build(h: Crypto, namespace: string, state: Ledger, input: Input): Body {
    Body(RECORD_SCHEMA, DURABLE_PROFILE, state.nextSequence, namespace,
         IngestionKey(h, namespace, input.logicalOperationId), input.logicalOperationId,
         h.sha(input.sourceEventBytes), input.sourceReceiptRef, h.sha(input.admissionReportBytes),
         PRODUCER_REPOSITORY, CAPABILITY_ID, CAPABILITY_COMMIT,
         CONSUMER_REPOSITORY, IMPORT_COMMIT, CONTRACT_BLOB,
         input.validTimeMs, input.transactionTimeMs, input.sourceEventBytes, input.admissionReportBytes,
         input.storageAdmissionRef, PERSISTENCE_SCOPE, true, false, false, false, state.head)
  }

  /** `apply_record`: every check in source order, then the insertion. */
  function ApplyRecord(h: Crypto, namespace: string, state: Ledger, record: Record): Result<Ledger> {
    var body := record.body;
    if body.schema != RECORD_SCHEMA || body.profile != DURABLE_PROFILE then Err(RecordProfileMismatch)
    else if body.namespace != namespace then Err(NamespaceMismatch)
    else if body.sequence != state.nextSequence then Err(SequenceMismatch(state.nextSequence, body.sequence))
    else if body.previousRecordHash != state.head then Err(PreviousRecordHashMismatch)
    else if Digest(h, body).None? then Err(Encoding)
    else if Digest(h, body).value != record.recordHash then Err(RecordHashMismatch)
    else if !ValidRef(record.recordHash) then Err(InvalidReference("record_hash"))
    else if !ValidRef(body.sourceReceiptRef) then Err(InvalidReference("source_receipt_ref"))
    else if !ValidRef(body.storageAdmissionRef) then Err(InvalidReference("storage_admission_ref"))
    else if Trim(body.logicalOperationId) == "" || Trim(body.logicalOperationId) != body.logicalOperationId
    then Err(InvalidLogicalOperationId)
    else if body.validTimeMs == 0 || body.transactionTimeMs < body.validTimeMs then Err(InvalidTemporalOrder)
    else if body.ingestionKey != IngestionKey(h, namespace, body.logicalOperationId) then Err(IngestionKeyMismatch)
    else if !ValidRef(body.ingestionKey) then Err(InvalidReference("ingestion_key"))
    else if body.sourceEventSha256 != h.sha(body.sourceEventBytes) then Err(SourceEventDigestMismatch)
    else if body.admissionReportSha256 != h.sha(body.admissionReportBytes) then Err(AdmissionReportDigestMismatch)
    else if body.producerRepository != PRODUCER_REPOSITORY || body.producerCapabilityId != CAPABILITY_ID ||
            body.producerCapabilityCommit != CAPABILITY_COMMIT
    then Err(ProducerCapabilityMismatch)
    else if body.consumerRepository != CONSUMER_REPOSITORY || body.consumerImportCommit != IMPORT_COMMIT ||
            body.consumerContractBlobSha != CONTRACT_BLOB
    then Err(ConsumerContractMismatch)
    else if body.persistenceScope != PERSISTENCE_SCOPE || !body.storageWriteAuthorized || body.executionAuthorized ||
            body.mutationAuthorized || body.externalEffectsAuthorized
    then Err(AuthorityBoundaryViolation)
    else if body.ingestionKey in state.records then Err(DuplicateIngestionKey(body.ingestionKey))
    else Ok(Ledger(state.nextSequence + 1, Some(record.recordHash), state.records[body.ingestionKey := record]))
  }

  /** `replay_from`: the state after every record of the WAL, or the first error. */
  function Replay(h: Crypto, namespace: string, wal: seq<Record>): Result<Ledger> {
    if wal == [] then Ok(GENESIS)
    else
      match Replay(h, namespace, wal[..|wal| - 1])
      case Err(e) => Err(e)
      case Ok(state) => ApplyRecord(h, namespace, state, wal[|wal| - 1])
  }

  predicate EquivalentSemanticInput(h: Crypto, existing: Record, input: Input) {
    existing.body.logicalOperationId == input.logicalOperationId &&
    existing.body.sourceEventBytes == input.sourceEventBytes &&
    existing.body.admissionReportBytes == input.admissionReportBytes &&
    existing.body.sourceReceiptRef == input.sourceReceiptRef &&
    existing.body.validTimeMs == input.validTimeMs &&
    existing.body.sourceEventSha256 == h.sha(input.sourceEventBytes) &&
    existing.body.admissionReportSha256 == h.sha(input.admissionReportBytes)
  }

  // ---- Storage and runs ---------------------------------------------------

  datatype Disk = Disk(wal: seq<Record>, tail: Tail)

  function StoreAppend(disk: Disk, record: Record, fault: Option<Fault>): Disk {
    match fault
    case None => Disk(disk.wal + [record], Clean)
    case Some(NothingWritten) => disk
    case Some(FrameTorn) => disk.(tail := TornFrame)
    case Some(PayloadTorn) => disk.(tail := TornPayload)
    case Some(Landed) => Disk(disk.wal + [record], Clean)
  }

  datatype Memory = Closed | Opened(state: Ledger, poisoned: bool)

  datatype Outcome = Inserted(record: Record) | AlreadyPresent(record: Record)

  datatype Machine = Machine(disk: Disk, memory: Memory)

  datatype Appended = Appended(machine: Machine, result: Result<Outcome>)

  /** `append` on an open ledger; `fault` is how the store append fails, if it is reached and fails. */
  function Append(h: Crypto, namespace: string, m: Machine, input: Input, fault: Option<Fault>): Appended
    requires m.memory.Opened?
  {
    var state := m.memory.state;
    if m.memory.poisoned then Appended(m, Err(PoisonedAfterStorageFailure))
    else
      match NormalizeInput(input)
      case Err(e) => Appended(m, Err(e))
      case Ok(norm) =>
        var key := IngestionKey(h, namespace, norm.logicalOperationId);
        if key in state.records then
          if EquivalentSemanticInput(h, state.records[key], norm)
          then Appended(m, Ok(AlreadyPresent(state.records[key])))
          else Appended(m, Err(IdempotencyConflict))
        else
          var body := Build(h, namespace, state, norm);
          match Digest(h, body)
          case None => Appended(m, Err(Encoding))
          case Some(hash) =>
            var record := Record(body, hash);
            match ApplyRecord(h, namespace, state, record)
            case Err(e) => Appended(m, Err(e))
            case Ok(candidate) =>
              var disk := StoreAppend(m.disk, record, fault);
              if fault.Some? then Appended(Machine(disk, m.memory.(poisoned := true)), Err(Storage))
              else Appended(Machine(disk, Opened(candidate, false)), Ok(Inserted(record)))
  }

  /** `open`: repair or reject the tail, then replay everything. */
  function Open(h: Crypto, namespace: string, disk: Disk): Result<Machine> {
    if disk.tail.TornPayload? then Err(Storage)
    else
      match Replay(h, namespace, disk.wal)
      case Err(e) => Err(e)
      case Ok(state) => Ok(Machine(disk.(tail := Clean), Opened(state, false)))
  }

  datatype Action = AppendAction(input: Input, fault: Option<Fault>) | CloseAction | OpenAction

  /** One step of the system; a failed open leaves the ledger closed. */
  function Step(h: Crypto, namespace: string, m: Machine, a: Action): Machine {
    match a
    case AppendAction(input, fault) =>
      if m.memory.Opened? then Append(h, namespace, m, input, fault).machine else m
    case CloseAction => m.(memory := Closed)
    case OpenAction =>
      if m.memory.Opened? then m
      else
        match Open(h, namespace, m.disk)
        case Ok(live) => live
        case Err(_) => m
  }

  const BLANK: Machine := Machine(Disk([], Clean), Closed)

  predicate IsRun(h: Crypto, namespace: string, trace: seq<Machine>, actions: seq<Action>) {
    |trace| == |actions| + 1 && trace[0] == BLANK &&
    forall i :: 0 <= i < |actions| ==> trace[i + 1] == Step(h, namespace, trace[i], actions[i])
  }
}
