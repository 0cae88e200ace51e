/** The records exchanged by producer, worker and daemon.
    A Rust string is the sequence of its UTF-8 code units, so `Text` holds chars below 256. */
module ProofProtocol {
  import opened Wrappers

  type Byte = b: int | 0 <= b < 256

  type Digest = d: seq<Byte> | |d| == 32 witness seq(32, i => 0)

  type Text = s: string | forall i :: 0 <= i < |s| ==> s[i] as int < 256

  const DAEMON_PROTOCOL_VERSION: nat := 2
  const PROOF_SCHEMA_VERSION: nat := 2
  const GROTH16_PROOF_BYTES: nat := 356
  const PUBLIC_VALUES_BYTES: nat := 32
  const LEASE_EXPIRED_MAX_ATTEMPTS_ERROR := "proof lease expired after reaching maximum attempts"

  datatype DaemonRequest = DaemonRequest(
    requestId: string,
    oldState: string,
    blockWitness: string,
    finalizedWitness: string,
    custodyScriptConfig: string,
    requiredConfirmations: nat,
    flatFee: nat,
    feeNum: nat,
    feeDen: nat,
    oldHeader: string,
    newHeader: string,
    configParams: string)

  datatype DaemonIdentity = DaemonIdentity(
    protocolVersion: nat,
    kind: string,
    network: string,
    guestId: string,
    blockElfSha256: string,
    vkeyHash: string)

  datatype DaemonProofResponse = DaemonProofResponse(
    kind: string,
    requestId: string,
    ok: bool,
    network: string,
    guestId: string,
    blockElfSha256: string,
    vkeyHash: string,
    proofSize: nat,
    proofBytes: string,
    publicValuesSize: nat,
    publicValues: string)

  datatype DaemonErrorCode = InvalidRequest | InvalidInput | ProofFailure | ExecuteTimeout | ProveTimeout

  datatype DaemonErrorResponse = DaemonErrorResponse(
    kind: string,
    requestId: Option<string>,
    ok: bool,
    code: DaemonErrorCode,
    error: string)

  type U32 = n: int | 0 <= n < 0x1_0000_0000

  datatype ProofJob = ProofJob(
    schemaVersion: U32,
    jobId: string,
    network: Text,
    height: U32,
    parentCheckpointSha256: string,
    inputFingerprint: string,
    guestId: Text,
    blockElfSha256: string,
    vkeyHash: string,
    request: DaemonRequest)

  /** One member of a JSON object; a member the object lacks is `Absent`. */
  datatype Field = Absent | Number(n: int) | Str(s: string)

  /** The nine members a result copies from its job. */
  datatype Identity = Identity(
    schemaVersion: Field,
    jobId: Field,
    network: Field,
    height: Field,
    parentCheckpointSha256: Field,
    inputFingerprint: Field,
    guestId: Field,
    blockElfSha256: Field,
    vkeyHash: Field)

  datatype Outcome = Succeeded(response: DaemonProofResponse, stderr: string) | Errored(error: string)

  datatype ResultDoc = ResultDoc(identity: Identity, outcome: Outcome)

  function IdentityOf(job: ProofJob): Identity {
    Identity(Number(job.schemaVersion), Str(job.jobId), Str(job.network), Number(job.height),
             Str(job.parentCheckpointSha256), Str(job.inputFingerprint), Str(job.guestId),
             Str(job.blockElfSha256), Str(job.vkeyHash))
  }

  /** `ProofJob::result_with`. */
  function ResultWith(job: ProofJob, outcome: Outcome): ResultDoc {
    ResultDoc(IdentityOf(job), outcome)
  }

  /** A stored payload, by what the two decoders make of it: text that is not JSON; a JSON number,
      boolean or null, which Lua cannot index; other JSON that is not a ProofJob (Lua finds no member in
      an array or a string, and raises nothing); or a ProofJob. */
  datatype Payload = NotJson(text: string) | Scalar(text: string) | OtherJson(members: Identity) | Job(job: ProofJob)

  datatype Decoded = Undecodable | Unindexable | Members(identity: Identity)

  /** `pcall(cjson.decode, job_json)` followed by reading the nine members. */
  function LuaDecode(p: Payload): Decoded {
    match p
    case NotJson(_) => Undecodable
    case Scalar(_) => Unindexable
    case OtherJson(members) => Members(members)
    case Job(job) => Members(IdentityOf(job))
  }

  /** A job's state document; `Unreadable` is text on which `cjson.decode` fails. */
  datatype JobState =
    | Unreadable
    | Queued
    | Claimed(workerId: string, leaseId: string, leaseExpiresMs: nat, attempt: nat)
    | Completed(completedMs: nat, attempt: nat)
    | Failed(failedMs: nat, attempt: nat, error: string)
  {
    /** `ProofJobState::matches_lease`. */
    predicate MatchesLease(worker: string, lease: string) {
      Claimed? && workerId == worker && leaseId == lease
    }

    predicate Terminal() {
      Completed? || Failed?
    }
  }
}
