/** One worker and the prover daemons it starts, one after another: requests and answers on a pipe,
    how the worker classifies an answer, and when it keeps the daemon for the next job. */
module Session {
  import opened Wrappers
  import opened ProofProtocol
  import opened Bytes
  import opened JobIdentity

  // ---------------------------------------------------------------- the worker's side

  /** Why a job failed; the wording of the messages is not modelled. */
  datatype Reason =
    // before anything is written
    | JobRejected(why: Rejection) | IdentityMismatch | RequestUnserializable | RequestTooLong
    // while writing or waiting
    | WriteFailed | WriteTimedOut | ResponseTimedOut | DaemonExited | ProtocolBroken | LeaseFenced | HeartbeatGaveUp
    // from the line read
    | BadResponseJson | MissingOk | BadErrorResponse | ErrorIdMismatch | DaemonReported(code: DaemonErrorCode, text: string)
    | BadProofResponse | BadDiscriminator | ResponseMismatch | BadProofHex | BadPublicValuesHex | BadSizes

  datatype WorkerFailure = WorkerFailure(reason: Reason, retryable: bool, restartDaemon: bool)

  /** Which of `permanent`, `transient`, `timeout` and `daemon_error` the code makes of each reason. */
  function FailureOf(reason: Reason): WorkerFailure {
    match reason
    case JobRejected(_) => Permanent(reason)              // validate_job
    case IdentityMismatch => Permanent(reason)            // validate_daemon_identity
    case RequestUnserializable => Permanent(reason)       // send_request, before the write
    case RequestTooLong => Permanent(reason)
    case WriteFailed => Transient(reason)                 // send_request, the write itself
    case WriteTimedOut => Transient(reason)               // timeout("request write")
    case ResponseTimedOut => Transient(reason)            // timeout("response")
    case DaemonExited => Transient(reason)                // child_status_failure
    case ProtocolBroken => Transient(reason)              // protocol_failure
    case LeaseFenced => Transient(reason)                 // heartbeat_until_resolved
    case HeartbeatGaveUp => Transient(reason)
    case DaemonReported(code, _) =>
      if code.ExecuteTimeout? || code.ProveTimeout? then Transient(reason) else Permanent(reason)
    case _ => Permanent(reason)                           // prove_claim and validate_proof_response
  }

  function Permanent(reason: Reason): WorkerFailure { WorkerFailure(reason, false, false) }

  function Transient(reason: Reason): WorkerFailure { WorkerFailure(reason, true, true) }

  /** A failure is retried, with a new daemon, exactly when it lies in the pipe, the daemon process, the lease or a
      timeout; what is wrong with the job, its request, or the proof is final. */
  lemma RetriedExactlyWhen(reason: Reason)
    ensures FailureOf(reason).reason == reason
    ensures FailureOf(reason).retryable <==>
              || reason.WriteFailed? || reason.WriteTimedOut? || reason.ResponseTimedOut? || reason.DaemonExited?
              || reason.ProtocolBroken? || reason.LeaseFenced? || reason.HeartbeatGaveUp?
              || (reason.DaemonReported? && (reason.code.ExecuteTimeout? || reason.code.ProveTimeout?))
    ensures FailureOf(reason).restartDaemon <==> FailureOf(reason).retryable
  {
  }

  /** `decode_daemon_identity`: with any other identity line a daemon is shut down before it is used. */
  predicate Starts(network: string, identity: DaemonIdentity) {
    && identity.protocolVersion == DAEMON_PROTOCOL_VERSION
    && identity.kind == "identity" && identity.network == network
    && DecodeHex32(identity.blockElfSha256).Success? && DecodeHex32(identity.vkeyHash).Success?
  }

  /** A daemon starts exactly with this protocol version, the worker's network and two bare lower-case
      digests; never with a key hash written with `0x`. */
  lemma StartsExactlyWhen(network: string, identity: DaemonIdentity)
    ensures Starts(network, identity) <==>
              && identity.protocolVersion == DAEMON_PROTOCOL_VERSION && identity.kind == "identity" && identity.network == network
              && |identity.blockElfSha256| == |identity.vkeyHash| == 64
              && AllLowerHex(identity.blockElfSha256) && AllLowerHex(identity.vkeyHash)
    ensures "0x" <= identity.vkeyHash ==> !Starts(network, identity)
  {
    DecodeHex32Accepts(identity.blockElfSha256);
    DecodeHex32Accepts(identity.vkeyHash);
    if "0x" <= identity.vkeyHash {
      PrefixedHexIsRefused(identity.vkeyHash[2..]);
      assert identity.vkeyHash == "0x" + identity.vkeyHash[2..];
    }
  }

  /** A response line as the worker's JSON decoding sees it. */
  datatype ResponseLine =
    | NotJsonLine                                   // not JSON at all
    | NoOkLine                                      // JSON without a boolean `ok`
    | OddErrorLine                                  // `ok` false, but no DaemonErrorResponse
    | OddProofLine                                  // `ok` true, but no DaemonProofResponse
    | ErrorLine(error: DaemonErrorResponse)
    | ProofLine(proof: DaemonProofResponse)

  /** `validate_daemon_identity`. */
  predicate IdentityMatches(job: ProofJob, identity: DaemonIdentity) {
    && identity.kind == "identity" && identity.protocolVersion == DAEMON_PROTOCOL_VERSION
    && identity.network == job.network && identity.guestId == job.guestId
    && identity.blockElfSha256 == job.blockElfSha256 && identity.vkeyHash == job.vkeyHash
  }

  /** `validate_proof_response`; None is acceptance. */
  function ValidateProofResponse(job: ProofJob, r: DaemonProofResponse): Option<Reason> {
    if r.kind != "proof" || !r.ok then Some(BadDiscriminator)
    else if r.requestId != job.request.requestId || r.network != job.network || r.guestId != job.guestId
            || r.blockElfSha256 != job.blockElfSha256 || r.vkeyHash != job.vkeyHash then Some(ResponseMismatch)
    else
      var proof := HexDecode(r.proofBytes);
      if proof.None? then Some(BadProofHex) else
      var values := HexDecode(r.publicValues);
      if values.None? then Some(BadPublicValuesHex)
      else if r.proofSize != GROTH16_PROOF_BYTES || r.publicValuesSize != PUBLIC_VALUES_BYTES
              || |proof.value| != GROTH16_PROOF_BYTES || |values.value| != PUBLIC_VALUES_BYTES then Some(BadSizes)
      else None
  }

  /** A response that is this job's in request id, network, guest, ELF and key, with the right sizes. */
  predicate Matches(job: ProofJob, r: DaemonProofResponse) {
    && r.kind == "proof" && r.ok
    && r.requestId == job.request.requestId && r.network == job.network && r.guestId == job.guestId
    && r.blockElfSha256 == job.blockElfSha256 && r.vkeyHash == job.vkeyHash
    && HexDecode(r.proofBytes).Some? && |HexDecode(r.proofBytes).value| == r.proofSize == GROTH16_PROOF_BYTES
    && HexDecode(r.publicValues).Some? && |HexDecode(r.publicValues).value| == r.publicValuesSize == PUBLIC_VALUES_BYTES
  }

  /** What `prove_claim` makes of the line it read for a job. */
  function Classify(job: ProofJob, line: ResponseLine): Result<DaemonProofResponse, WorkerFailure> {
    match line
    case NotJsonLine => Failure(FailureOf(BadResponseJson))
    case NoOkLine => Failure(FailureOf(MissingOk))
    case OddErrorLine => Failure(FailureOf(BadErrorResponse))
    case OddProofLine => Failure(FailureOf(BadProofResponse))
    case ErrorLine(error) =>
      if error.kind != "proof" || error.requestId != Some(job.request.requestId)
      then Failure(FailureOf(ErrorIdMismatch)) else Failure(FailureOf(DaemonReported(error.code, error.error)))
    case ProofLine(proof) =>
      var bad := ValidateProofResponse(job, proof);
      if bad.Some? then Failure(FailureOf(bad.value)) else Success(proof)
  }

  /** A job goes to exactly one identity: the protocol version, the job's network, guest, ELF digest and key
      hash. For an accepted job a daemon with that identity starts. */
  lemma MatchingIdentityStarts(c: Crypto, job: ProofJob, network: string, identity: DaemonIdentity)
    ensures IdentityMatches(job, identity) <==>
              identity == DaemonIdentity(2, "identity", job.network, job.guestId, job.blockElfSha256, job.vkeyHash)
    ensures ValidateJob(c, job, network).Accepted? && IdentityMatches(job, identity) ==> Starts(network, identity)
  {
    ValidateJobExact(c, job, network);
  }

  /** A line ends in success exactly when it is a proof with this job's request id, network, guest, ELF digest and
      key hash, hex of the right sizes, and the sizes said; and a failure asks for a new daemon exactly when it is
      a timeout reported for this very request. What the daemon reports for it is what the job fails for. */
  lemma ClassifyExact(job: ProofJob, line: ResponseLine)
    ensures Classify(job, line).Success? <==> line.ProofLine? && Matches(job, line.proof)
    ensures Classify(job, line).Success? <==>
              && line.ProofLine? && line.proof.kind == "proof" && line.proof.ok
              && line.proof.requestId == job.request.requestId && line.proof.network == job.network
              && line.proof.guestId == job.guestId && line.proof.blockElfSha256 == job.blockElfSha256
              && line.proof.vkeyHash == job.vkeyHash
              && line.proof.proofSize == 356 && line.proof.publicValuesSize == 32
              && HexDecode(line.proof.proofBytes).Some? && |HexDecode(line.proof.proofBytes).value| == 356
              && HexDecode(line.proof.publicValues).Some? && |HexDecode(line.proof.publicValues).value| == 32
    ensures Classify(job, line).Success? ==> Classify(job, line).value == line.proof
    ensures (Classify(job, line).Failure? && Classify(job, line).error.restartDaemon) <==>
              (line.ErrorLine? && line.error.kind == "proof" && line.error.requestId == Some(job.request.requestId)
               && (line.error.code.ExecuteTimeout? || line.error.code.ProveTimeout?))
    ensures Classify(job, line).Failure? ==> Classify(job, line).error.retryable == Classify(job, line).error.restartDaemon
    ensures line.ErrorLine? && line.error.kind == "proof" && line.error.requestId == Some(job.request.requestId) ==>
              Classify(job, line).Failure? && Classify(job, line).error.reason == DaemonReported(line.error.code, line.error.error)
  {
  }

  /** Any other line fails the job for good, for the first fault in the order of the checks. */
  lemma FirstFaultNamed(job: ProofJob, line: ResponseLine)
    ensures line.NotJsonLine? ==> Classify(job, line) == Failure(WorkerFailure(BadResponseJson, false, false))
    ensures line.NoOkLine? ==> Classify(job, line) == Failure(WorkerFailure(MissingOk, false, false))
    ensures line.OddErrorLine? ==> Classify(job, line) == Failure(WorkerFailure(BadErrorResponse, false, false))
    ensures line.OddProofLine? ==> Classify(job, line) == Failure(WorkerFailure(BadProofResponse, false, false))
    ensures line.ErrorLine? && (line.error.kind != "proof" || line.error.requestId != Some(job.request.requestId)) ==>
              Classify(job, line) == Failure(WorkerFailure(ErrorIdMismatch, false, false))
    ensures line.ProofLine? && !Matches(job, line.proof) ==>
              Classify(job, line) == Failure(WorkerFailure(
                if line.proof.kind != "proof" || !line.proof.ok then BadDiscriminator
                else if line.proof.requestId != job.request.requestId || line.proof.network != job.network
                     || line.proof.guestId != job.guestId || line.proof.blockElfSha256 != job.blockElfSha256
                     || line.proof.vkeyHash != job.vkeyHash then ResponseMismatch
                else if HexDecode(line.proof.proofBytes).None? then BadProofHex
                else if HexDecode(line.proof.publicValues).None? then BadPublicValuesHex
                else BadSizes, false, false))
  {
  }

  // ---------------------------------------------------------------- the daemon's side

  datatype WorkPhase = SetupPhase | ExecutePhase | ProvePhase

  /** What decoding a request's inputs and `generate_proof` come to. */
  datatype Work =
    | Artifacts(proof: seq<Byte>, publicValues: seq<Byte>)
    | BadInput(text: string)
    | WorkFailed(text: string)
    | TimedOut(phase: WorkPhase, text: string)

  /** `generate_proof` only times out while executing or proving; setup is over by then. */
  predicate FromGenerateProof(work: Work) { work.TimedOut? ==> work.phase != SetupPhase }

  /** `daemon_error_code`. */
  function CodeOf(work: Work): DaemonErrorCode
    requires !work.Artifacts?
  {
    match work
    case BadInput(_) => InvalidInput
    case WorkFailed(_) => ProofFailure
    case TimedOut(ExecutePhase, _) => ExecuteTimeout
    case TimedOut(ProvePhase, _) => ProveTimeout
    case TimedOut(SetupPhase, _) => ProofFailure
  }

  /** The line the daemon writes for a request it could parse. */
  function Answer(identity: DaemonIdentity, request: DaemonRequest, work: Work): ResponseLine {
    match work
    case Artifacts(proof, values) =>
      ProofLine(DaemonProofResponse("proof", request.requestId, true, identity.network, identity.guestId,
                                    identity.blockElfSha256, identity.vkeyHash,
                                    |proof|, HexEncode(proof), |values|, HexEncode(values)))
    case _ => ErrorLine(DaemonErrorResponse("proof", Some(request.requestId), false, CodeOf(work), work.text))
  }

  /** A line on the daemon's standard input, or an error instead of one. */
  datatype RequestLine = Unreadable | Blank | Unparsable(text: string) | Request(request: DaemonRequest)

  function LineAnswer(identity: DaemonIdentity, line: RequestLine, work: Work): seq<ResponseLine> {
    match line
    case Unreadable => []
    case Blank => []
    case Unparsable(text) => [ErrorLine(DaemonErrorResponse("proof", None, false, InvalidRequest, text))]
    case Request(request) => [Answer(identity, request, work)]
  }

  function Answers(identity: DaemonIdentity, lines: seq<RequestLine>, works: seq<Work>): seq<ResponseLine>
    requires |lines| <= |works|
  {
    if lines == [] then []
    else Answers(identity, lines[..|lines| - 1], works) + LineAnswer(identity, lines[|lines| - 1], works[|lines| - 1])
  }

  const TIMEOUT_EXIT_CODE := 75

  /** The request loop of `run_daemon`, given what each line's work will come to and whether its answer can
      be written. It answers every non-blank line it takes, in order, and stops at the first error or
      timeout: with 75 exactly when the work of the last line it took timed out, having answered that line
      too; with 1 when the next line cannot be read or its answer cannot be written; with 0 at the end. */
  method RunDaemon(identity: DaemonIdentity, lines: seq<RequestLine>, works: seq<Work>, writable: seq<bool>)
    returns (out: seq<ResponseLine>, taken: nat, exit: int)
    requires |works| == |writable| == |lines|
    ensures taken <= |lines| && out == Answers(identity, lines[..taken], works)
    ensures forall i :: 0 <= i < taken ==> !lines[i].Unreadable? && (lines[i].Blank? || writable[i])
    ensures forall i :: 0 <= i < taken - 1 ==> !(lines[i].Request? && works[i].TimedOut?)
    ensures exit == 75 <==> taken > 0 && lines[taken - 1].Request? && works[taken - 1].TimedOut?
    ensures exit == 1 ==> taken < |lines| && (lines[taken].Unreadable? || (!lines[taken].Blank? && !writable[taken]))
    ensures exit == 0 ==> taken == |lines|
    ensures exit == 0 || exit == 1 || exit == 75
  {
    out, taken := [], 0;
    while taken < |lines|
      invariant taken <= |lines| && out == Answers(identity, lines[..taken], works)
      invariant forall i :: 0 <= i < taken ==> !lines[i].Unreadable? && (lines[i].Blank? || writable[i])
      invariant forall i :: 0 <= i < taken ==> !(lines[i].Request? && works[i].TimedOut?)
    {
      var line := lines[taken];
      assert lines[..taken + 1][..taken] == lines[..taken];
      if line.Unreadable? { return out, taken, 1; }
      if !line.Blank? && !writable[taken] { return out, taken, 1; }
      taken := taken + 1;
      match line {
        case Blank => continue;
        case Unparsable(text) =>
          out := out + [ErrorLine(DaemonErrorResponse("proof", None, false, InvalidRequest, text))];
          continue;
        case Request(request) =>
          out := out + [Answer(identity, request, works[taken - 1])];
          if works[taken - 1].TimedOut? { return out, taken, TIMEOUT_EXIT_CODE; }
      }
    }
    exit := 0;
  }

  /** How many of these lines get an answer. */
  function AnswersDue(lines: seq<RequestLine>): nat {
    if lines == [] then 0
    else AnswersDue(lines[..|lines| - 1]) + if lines[|lines| - 1].Request? || lines[|lines| - 1].Unparsable? then 1 else 0
  }

  /** The answer to a request, by what its work came to. */
  lemma AnswerTells(identity: DaemonIdentity, request: DaemonRequest, work: Work)
    ensures work.Artifacts? ==>
              Answer(identity, request, work) ==
                ProofLine(DaemonProofResponse("proof", request.requestId, true, identity.network, identity.guestId,
                                              identity.blockElfSha256, identity.vkeyHash,
                                              |work.proof|, HexEncode(work.proof), |work.publicValues|, HexEncode(work.publicValues)))
    ensures !work.Artifacts? ==>
              && Answer(identity, request, work).ErrorLine?
              && var error := Answer(identity, request, work).error;
                 error == DaemonErrorResponse("proof", Some(request.requestId), false, error.code, work.text)
    ensures work.BadInput? ==> Answer(identity, request, work).error.code == InvalidInput
    ensures work.WorkFailed? ==> Answer(identity, request, work).error.code == ProofFailure
    ensures work.TimedOut? && work.phase.ExecutePhase? ==> Answer(identity, request, work).error.code == ExecuteTimeout
    ensures work.TimedOut? && work.phase.ProvePhase? ==> Answer(identity, request, work).error.code == ProveTimeout
    ensures work.TimedOut? && work.phase.SetupPhase? ==> Answer(identity, request, work).error.code == ProofFailure
  {
  }

  /** One answer for each line that is neither blank nor unreadable, in order, and nothing else: a line that is no
      request gets an error without a request id, a request the proof or error that its work came to, under
      its own id. */
  lemma {:induction false} AnswersInOrder(identity: DaemonIdentity, lines: seq<RequestLine>, works: seq<Work>, i: nat)
    requires |lines| <= |works| && i < |lines|
    ensures |Answers(identity, lines, works)| == AnswersDue(lines)
    ensures lines[i].Request? || lines[i].Unparsable? ==> AnswersDue(lines[..i]) < AnswersDue(lines)
    ensures lines[i].Unparsable? ==>
              Answers(identity, lines, works)[AnswersDue(lines[..i])]
                == ErrorLine(DaemonErrorResponse("proof", None, false, InvalidRequest, lines[i].text))
    ensures lines[i].Request? ==>
              Answers(identity, lines, works)[AnswersDue(lines[..i])] == Answer(identity, lines[i].request, works[i])
    decreases |lines|
  {
    var init := lines[..|lines| - 1];
    if i < |init| {
      AnswersInOrder(identity, init, works, i);
      assert init[..i] == lines[..i] && init[i] == lines[i];
    } else {
      assert init == lines[..i];
      if init != [] { AnswersInOrder(identity, init, works, 0); }
    }
  }

  /** An honest answer to a job's own request is classified by what the work came to: a proof of the
      right sizes is accepted byte for byte, a timeout asks for retry and restart, anything else is
      final and keeps the daemon. */
  lemma ClassifyAnswer(job: ProofJob, identity: DaemonIdentity, work: Work)
    requires IdentityMatches(job, identity) && FromGenerateProof(work)
    ensures match (work, Classify(job, Answer(identity, job.request, work)))
            case (Artifacts(proof, values), Success(r)) =>
              |proof| == GROTH16_PROOF_BYTES && |values| == PUBLIC_VALUES_BYTES
              && HexDecode(r.proofBytes) == Some(proof) && HexDecode(r.publicValues) == Some(values)
            case (Artifacts(proof, values), Failure(f)) =>
              (|proof| != GROTH16_PROOF_BYTES || |values| != PUBLIC_VALUES_BYTES) && f == FailureOf(BadSizes)
            case (TimedOut(_, text), Failure(f)) => f.retryable && f.restartDaemon
            case (_, Failure(f)) => !f.retryable && !f.restartDaemon
            case _ => false
  {
    if work.Artifacts? {
      EncodeThenDecode(work.proof);
      EncodeThenDecode(work.publicValues);
    }
  }

  lemma SizesDecide(job: ProofJob, r: DaemonProofResponse, proof: seq<Byte>, values: seq<Byte>)
    requires HexDecode(r.proofBytes) == Some(proof) && HexDecode(r.publicValues) == Some(values)
    requires r.kind == "proof" && r.ok && r.requestId == job.request.requestId && r.network == job.network
    requires r.guestId == job.guestId && r.blockElfSha256 == job.blockElfSha256 && r.vkeyHash == job.vkeyHash
    requires r.proofSize == |proof| && r.publicValuesSize == |values|
    ensures ValidateProofResponse(job, r) == if |proof| == 356 && |values| == 32 then None else Some(BadSizes)
  {
  }

  /** What a response of this job is classified as that says its sizes truly. */
  lemma TrueSizes(job: ProofJob, r: DaemonProofResponse, proof: seq<Byte>, values: seq<Byte>)
    requires r == DaemonProofResponse("proof", job.request.requestId, true, job.network, job.guestId, job.blockElfSha256,
                                      job.vkeyHash, |proof|, r.proofBytes, |values|, r.publicValues)
    requires HexDecode(r.proofBytes) == Some(proof) && HexDecode(r.publicValues) == Some(values)
    ensures Classify(job, ProofLine(r)) == if |proof| == 356 && |values| == 32 then Success(r) else Failure(FailureOf(BadSizes))
  {
    SizesDecide(job, r, proof, values);
  }

  lemma ProofVerdict(job: ProofJob, identity: DaemonIdentity, work: Work)
    requires IdentityMatches(job, identity) && work.Artifacts?
    ensures var r := DaemonProofResponse("proof", job.request.requestId, true, job.network, job.guestId, job.blockElfSha256,
                                         job.vkeyHash, |work.proof|, HexEncode(work.proof),
                                         |work.publicValues|, HexEncode(work.publicValues));
            Classify(job, Answer(identity, job.request, work)) ==
              if |work.proof| == 356 && |work.publicValues| == 32 then Success(r) else Failure(FailureOf(BadSizes))
  {
    EncodeThenDecode(work.proof);
    EncodeThenDecode(work.publicValues);
    TrueSizes(job, Answer(identity, job.request, work).proof, work.proof, work.publicValues);
  }

  lemma ErrorVerdict(job: ProofJob, identity: DaemonIdentity, work: Work)
    requires !work.Artifacts?
    ensures Classify(job, Answer(identity, job.request, work)) == Failure(FailureOf(DaemonReported(CodeOf(work), work.text)))
  {
  }

  /** The same, spelled out: the very response that is kept, or the very reason, by what the work came to. */
  lemma AnswerVerdict(job: ProofJob, identity: DaemonIdentity, work: Work)
    requires IdentityMatches(job, identity) && FromGenerateProof(work)
    ensures var outcome := Classify(job, Answer(identity, job.request, work));
            && (work.Artifacts? && |work.proof| == 356 && |work.publicValues| == 32 ==>
                  outcome == Success(DaemonProofResponse("proof", job.request.requestId, true, job.network, job.guestId,
                                                         job.blockElfSha256, job.vkeyHash, 356, HexEncode(work.proof),
                                                         32, HexEncode(work.publicValues))))
            && (work.Artifacts? && (|work.proof| != 356 || |work.publicValues| != 32) ==> outcome == Failure(FailureOf(BadSizes)))
            && (work.BadInput? ==> outcome == Failure(FailureOf(DaemonReported(InvalidInput, work.text))))
            && (work.WorkFailed? ==> outcome == Failure(FailureOf(DaemonReported(ProofFailure, work.text))))
            && (work.TimedOut? ==>
                  outcome == Failure(FailureOf(DaemonReported(if work.phase.ExecutePhase? then ExecuteTimeout else ProveTimeout,
                                                              work.text))))
  {
    if work.Artifacts? {
      ProofVerdict(job, identity, work);
    } else {
      ErrorVerdict(job, identity, work);
    }
  }

  // ---------------------------------------------------------------- the two together

  /** One daemon process: every whole request line written to it, whether part of a further one has been,
      how many it has answered, the answers not yet read, and its exit status. */
  datatype Pipe = Pipe(identity: DaemonIdentity, written: seq<DaemonRequest>, torn: bool, answered: nat,
                       unread: seq<ResponseLine>, exit: Option<int>)

  datatype Phase = Between | Writing(job: ProofJob) | Waiting(job: ProofJob)

  /** `run`'s `daemon` variable, and where `prove_claim` is. */
  datatype Talk = Talk(daemon: Option<Pipe>, phase: Phase)

  const Quiet := Talk(None, Between)

  /** A proof some daemon has produced, with the request it was produced for. */
  datatype Artifact = Artifact(request: DaemonRequest, proof: seq<Byte>, publicValues: seq<Byte>)

  datatype TalkEvent =
    | StartDaemon(identity: DaemonIdentity)
    | Reject(job: ProofJob, reason: Reason)     // `prove_claim` fails before it writes
    | BeginWrite(job: ProofJob)                 // enters the loop of `send_request`; nothing is written yet
    | WritePart                                 // some bytes of the request go out
    | EndWrite
    | ReadAnswer
    | BreakOff(reason: Reason)                  // `prove_claim` fails while writing or waiting
    | DaemonAnswers(work: Work)
    | DaemonDies(code: int)                     // killed, crashed or failed, not the exit-75 path

  predicate FailsBeforeWriting(job: ProofJob, identity: DaemonIdentity, reason: Reason) {
    || reason.JobRejected?
    || (reason.IdentityMismatch? && !IdentityMatches(job, identity))
    || ((reason.RequestUnserializable? || reason.RequestTooLong?) && IdentityMatches(job, identity))
  }

  predicate FailsWhile(phase: Phase, reason: Reason) {
    match phase
    case Between => false
    case Writing(_) =>
      reason.WriteFailed? || reason.WriteTimedOut? || reason.DaemonExited? || reason.LeaseFenced? || reason.HeartbeatGaveUp?
    case Waiting(_) =>
      reason.ResponseTimedOut? || reason.ProtocolBroken? || reason.DaemonExited? || reason.LeaseFenced? || reason.HeartbeatGaveUp?
  }

  predicate TalkEnabled(network: string, t: Talk, e: TalkEvent) {
    match e
    case StartDaemon(identity) => t.daemon.None? && t.phase.Between? && Starts(network, identity)
    case Reject(job, reason) => t.daemon.Some? && t.phase.Between? && FailsBeforeWriting(job, t.daemon.value.identity, reason)
    case BeginWrite(job) => t.daemon.Some? && t.phase.Between? && IdentityMatches(job, t.daemon.value.identity)
    case WritePart => t.daemon.Some? && t.phase.Writing?
    case EndWrite => t.daemon.Some? && t.phase.Writing?
    case ReadAnswer => t.daemon.Some? && t.phase.Waiting? && t.daemon.value.unread != []
    case BreakOff(reason) => t.daemon.Some? && FailsWhile(t.phase, reason)
    case DaemonAnswers(work) =>
      t.daemon.Some? && t.daemon.value.exit.None? && t.daemon.value.answered < |t.daemon.value.written|
      && FromGenerateProof(work)
    case DaemonDies(code) => t.daemon.Some? && t.daemon.value.exit.None? && code != TIMEOUT_EXIT_CODE
  }

  /** What can end an attempt other than an answer: before writing, the job's own faults, an identity that is not the
      job's, or, with the right one, a request that cannot be sent; while writing or waiting, only what is
      retried. */
  lemma WhatEndsAnAttempt(network: string, t: Talk, job: ProofJob, reason: Reason)
    requires t.daemon.Some?
    ensures TalkEnabled(network, t, Reject(job, reason)) <==>
              var own := DaemonIdentity(2, "identity", job.network, job.guestId, job.blockElfSha256, job.vkeyHash);
              t.phase.Between? && (reason.JobRejected? || (reason.IdentityMismatch? && t.daemon.value.identity != own)
                                   || ((reason.RequestUnserializable? || reason.RequestTooLong?) && t.daemon.value.identity == own))
    ensures TalkEnabled(network, t, BreakOff(reason)) <==>
              || (t.phase.Writing? && (reason.WriteFailed? || reason.WriteTimedOut? || reason.DaemonExited?
                                       || reason.LeaseFenced? || reason.HeartbeatGaveUp?))
              || (t.phase.Waiting? && (reason.ResponseTimedOut? || reason.ProtocolBroken? || reason.DaemonExited?
                                       || reason.LeaseFenced? || reason.HeartbeatGaveUp?))
    ensures TalkEnabled(network, t, Reject(job, reason)) ==> !FailureOf(reason).retryable
    ensures TalkEnabled(network, t, BreakOff(reason)) ==> FailureOf(reason).retryable
  {
  }

  /** How much of the answer's line the worker gets to see: all of it, or, when a heartbeat tick has dropped
      a read half-way, the rest of it: text that is no longer JSON, or bytes that are no longer UTF-8. */
  datatype Cut = WholeLine | TailOnly | Garbled

  /** What `prove_claim` makes of that. */
  function Verdict(job: ProofJob, line: ResponseLine, cut: Cut): Result<DaemonProofResponse, WorkerFailure> {
    match cut
    case WholeLine => Classify(job, line)
    case TailOnly => Classify(job, NotJsonLine)
    case Garbled => Failure(FailureOf(ProtocolBroken))
  }

  /** The worker ends its attempt with `left` on the pipe, and keeps or stops the daemon as the flag says. */
  function Concluded(left: Pipe, failure: Option<WorkerFailure>): Talk {
    if failure.Some? && failure.value.restartDaemon then Quiet else Talk(Some(left), Between)
  }

  function AfterReading(p: Pipe): Pipe
    requires p.unread != []
  {
    p.(unread := p.unread[1..])
  }

  function ReadCut(t: Talk, cut: Cut): Talk
    requires t.daemon.Some? && t.phase.Waiting? && t.daemon.value.unread != []
  {
    var outcome := Verdict(t.phase.job, t.daemon.value.unread[0], cut);
    Concluded(AfterReading(t.daemon.value), if outcome.Failure? then Some(outcome.error) else None)
  }

  function TalkStep(network: string, t: Talk, e: TalkEvent): Talk
    requires TalkEnabled(network, t, e)
  {
    match e
    case StartDaemon(identity) => Talk(Some(Pipe(identity, [], false, 0, [], None)), Between)
    case Reject(_, reason) => Concluded(t.daemon.value, Some(FailureOf(reason)))
    case BeginWrite(job) => Talk(t.daemon, Writing(job))
    case WritePart => t.(daemon := Some(t.daemon.value.(torn := true)))
    case EndWrite =>
      var p := t.daemon.value;
      Talk(Some(p.(written := p.written + [t.phase.job.request], torn := false)), Waiting(t.phase.job))
    case ReadAnswer => ReadCut(t, WholeLine)
    case BreakOff(reason) => Concluded(t.daemon.value, Some(FailureOf(reason)))
    case DaemonAnswers(work) =>
      var p := t.daemon.value;
      t.(daemon := Some(p.(answered := p.answered + 1,
                           unread := p.unread + [Answer(p.identity, p.written[p.answered], work)],
                           exit := if work.TimedOut? then Some(TIMEOUT_EXIT_CODE) else None)))
    case DaemonDies(code) => t.(daemon := Some(t.daemon.value.(exit := Some(code))))
  }

  /** The artifacts known after a step. */
  function Produced(network: string, t: Talk, e: TalkEvent, made: set<Artifact>): set<Artifact>
    requires TalkEnabled(network, t, e)
  {
    if e.DaemonAnswers? && e.work.Artifacts? then
      made + {Artifact(t.daemon.value.written[t.daemon.value.answered], e.work.proof, e.work.publicValues)}
    else made
  }

  /** Nothing outstanding on the pipe in either direction, and the daemon has not left by its timeout path. */
  predicate Clean(p: Pipe) {
    !p.torn && p.answered == |p.written| && p.unread == [] && p.exit != Some(TIMEOUT_EXIT_CODE)
  }

  /** The one unread answer is the daemon's answer to this job's request. */
  ghost predicate OwnAnswer(p: Pipe, job: ProofJob, made: set<Artifact>) {
    && !p.torn && p.answered == |p.written|
    && exists work :: FromGenerateProof(work) && p.unread == [Answer(p.identity, job.request, work)]
                      && (p.exit == Some(TIMEOUT_EXIT_CODE) <==> work.TimedOut?)
                      && (work.Artifacts? ==> Artifact(job.request, work.proof, work.publicValues) in made)
  }

  ghost predicate Paired(network: string, t: Talk, made: set<Artifact>) {
    && (t.daemon.Some? ==> Starts(network, t.daemon.value.identity))
    && match (t.daemon, t.phase)
       case (None, phase) => phase.Between?
       case (Some(p), Between) => Clean(p)
       case (Some(p), Writing(job)) => Clean(p.(torn := false)) && IdentityMatches(job, p.identity)
       case (Some(p), Waiting(job)) =>
         && p.written != [] && p.written[|p.written| - 1] == job.request && IdentityMatches(job, p.identity)
         && (Clean(p.(answered := p.answered + 1)) || OwnAnswer(p, job, made))
  }

  /** The work behind the one unread answer. */
  lemma WorkBehind(p: Pipe, job: ProofJob, made: set<Artifact>) returns (work: Work)
    requires OwnAnswer(p, job, made)
    ensures FromGenerateProof(work) && p.unread == [Answer(p.identity, job.request, work)]
    ensures p.exit == Some(TIMEOUT_EXIT_CODE) <==> work.TimedOut?
    ensures work.Artifacts? ==> Artifact(job.request, work.proof, work.publicValues) in made
  {
    work :| FromGenerateProof(work) && p.unread == [Answer(p.identity, job.request, work)]
            && (p.exit == Some(TIMEOUT_EXIT_CODE) <==> work.TimedOut?)
            && (work.Artifacts? ==> Artifact(job.request, work.proof, work.publicValues) in made);
  }

  /** What an attempt that ends with `e` leaves on the pipe if the daemon is kept. */
  function LeftBy(network: string, t: Talk, e: TalkEvent): Pipe
    requires TalkEnabled(network, t, e) && (e.Reject? || e.BreakOff? || e.ReadAnswer?)
  {
    if e.ReadAnswer? then AfterReading(t.daemon.value) else t.daemon.value
  }

  /** However an attempt ends, a daemon is kept only if what it leaves on the pipe is clean; and a daemon with
      a clean pipe is stopped exactly if the attempt failed in the write loop before a byte was written. So it
      is kept before that loop, never in it or while waiting, and after a line unless the line said that the
      work timed out. */
  lemma KeptExactlyWhenClean(network: string, t: Talk, e: TalkEvent, made: set<Artifact>)
    requires Paired(network, t, made) && TalkEnabled(network, t, e) && (e.Reject? || e.BreakOff? || e.ReadAnswer?)
    ensures var (left, t') := (LeftBy(network, t, e), TalkStep(network, t, e));
            && (t' == Talk(Some(left), Between) || t' == Quiet)
            && (t' != Quiet ==> Clean(left))
            && (t' == Quiet && Clean(left) <==> e.BreakOff? && t.phase.Writing? && !t.daemon.value.torn)
            && (e.Reject? ==> t' != Quiet) && (e.BreakOff? ==> t' == Quiet)
            && (e.ReadAnswer? ==> (t' == Quiet <==> t.daemon.value.exit == Some(TIMEOUT_EXIT_CODE)))
  {
    if e.ReadAnswer? {
      var p, job := t.daemon.value, t.phase.job;
      var work := WorkBehind(p, job, made);
      ClassifyAnswer(job, p.identity, work);
    }
  }

  /** What can happen while a request is being written: parts of it go out, and the daemon may die. */
  predicate WhileWriting(es: seq<TalkEvent>) {
    forall i :: 0 <= i < |es| ==> es[i].WritePart? || es[i].DaemonDies?
  }

  predicate SomePart(es: seq<TalkEvent>) {
    exists i :: 0 <= i < |es| && es[i].WritePart?
  }

  lemma {:induction false} PartsTear(network: string, t: Talk, es: seq<TalkEvent>, made: set<Artifact>)
    requires Paired(network, t, made) && t.phase.Writing? && TalkPossible(network, t, es) && WhileWriting(es)
    ensures var t' := TalkRun(network, t, es);
            && Paired(network, t', made) && t'.phase == t.phase && t'.daemon.Some?
            && (t'.daemon.value.torn <==> t.daemon.value.torn || SomePart(es))
    decreases |es|
  {
    if es != [] {
      assert es[0].WritePart? || es[0].DaemonDies?;
      TalkStepPairs(network, t, es[0], made);
      assert forall i :: 0 <= i < |es| - 1 ==> es[1..][i] == es[i + 1];
      PartsTear(network, TalkStep(network, t, es[0]), es[1..], made);
      if SomePart(es) && !es[0].WritePart? {
        var i :| 0 <= i < |es| && es[i].WritePart?;
        assert es[1..][i - 1].WritePart?;
      }
    }
  }

  /** An attempt that fails in the write loop stops its daemon, and that daemon's pipe was clean exactly if no part of
      the request had gone out. */
  lemma WriteFailureStops(network: string, t: Talk, job: ProofJob, es: seq<TalkEvent>, reason: Reason, made: set<Artifact>)
    requires Paired(network, t, made) && TalkEnabled(network, t, BeginWrite(job))
    requires TalkPossible(network, TalkStep(network, t, BeginWrite(job)), es) && WhileWriting(es)
    ensures var t' := TalkRun(network, TalkStep(network, t, BeginWrite(job)), es);
            && t'.phase.Writing? && t'.daemon.Some? && (Clean(t'.daemon.value) <==> !SomePart(es))
            && (TalkEnabled(network, t', BreakOff(reason)) ==> TalkStep(network, t', BreakOff(reason)) == Quiet)
  {
    TalkStepPairs(network, t, BeginWrite(job), made);
    PartsTear(network, TalkStep(network, t, BeginWrite(job)), es, made);
  }

  lemma AnswerPairs(network: string, t: Talk, work: Work, made: set<Artifact>)
    requires Paired(network, t, made) && TalkEnabled(network, t, DaemonAnswers(work))
    ensures var e := DaemonAnswers(work); Paired(network, TalkStep(network, t, e), Produced(network, t, e, made))
  {
    var e := DaemonAnswers(work);
    assert t.daemon.value.unread == [];
    assert OwnAnswer(TalkStep(network, t, e).daemon.value, t.phase.job, Produced(network, t, e, made));
  }

  lemma DeathPairs(network: string, t: Talk, code: int, made: set<Artifact>)
    requires Paired(network, t, made) && TalkEnabled(network, t, DaemonDies(code))
    ensures Paired(network, TalkStep(network, t, DaemonDies(code)), made)
  {
    if t.phase.Waiting? && OwnAnswer(t.daemon.value, t.phase.job, made) {
      var work := WorkBehind(t.daemon.value, t.phase.job, made);
      assert OwnAnswer(TalkStep(network, t, DaemonDies(code)).daemon.value, t.phase.job, made);
    }
  }

  lemma TalkStepPairs(network: string, t: Talk, e: TalkEvent, made: set<Artifact>)
    requires Paired(network, t, made) && TalkEnabled(network, t, e)
    ensures Paired(network, TalkStep(network, t, e), Produced(network, t, e, made))
  {
    match e
    case DaemonAnswers(work) => AnswerPairs(network, t, work, made);
    case DaemonDies(code) => DeathPairs(network, t, code, made);
    case Reject(_, _) => KeptExactlyWhenClean(network, t, e, made);
    case BreakOff(_) => KeptExactlyWhenClean(network, t, e, made);
    case ReadAnswer => KeptExactlyWhenClean(network, t, e, made);
    case _ =>
  }

  // ---------------------------------------------------------------- whole sessions

  predicate TalkPossible(network: string, t: Talk, es: seq<TalkEvent>)
    decreases |es|
  {
    es == [] || (TalkEnabled(network, t, es[0]) && TalkPossible(network, TalkStep(network, t, es[0]), es[1..]))
  }

  function TalkRun(network: string, t: Talk, es: seq<TalkEvent>): Talk
    requires TalkPossible(network, t, es)
    decreases |es|
  {
    if es == [] then t else TalkRun(network, TalkStep(network, t, es[0]), es[1..])
  }

  function MadeIn(network: string, t: Talk, es: seq<TalkEvent>, made: set<Artifact>): set<Artifact>
    requires TalkPossible(network, t, es)
    decreases |es|
  {
    if es == [] then made
    else MadeIn(network, TalkStep(network, t, es[0]), es[1..], Produced(network, t, es[0], made))
  }

  lemma {:induction false} RunPairs(network: string, t: Talk, es: seq<TalkEvent>, made: set<Artifact>)
    requires Paired(network, t, made) && TalkPossible(network, t, es)
    ensures Paired(network, TalkRun(network, t, es), MadeIn(network, t, es, made))
    decreases |es|
  {
    if es != [] {
      TalkStepPairs(network, t, es[0], made);
      RunPairs(network, TalkStep(network, t, es[0]), es[1..], Produced(network, t, es[0], made));
    }
  }

  /** Along every session: the daemon in use has an identity that starts; kept for the next job, it has
      answered all that was written to it and has not taken its exit-75 path; and the line read for a job is
      the answer to that job's request. */
  lemma KeptDaemonIsClean(network: string, es: seq<TalkEvent>)
    requires TalkPossible(network, Quiet, es)
    ensures var t := TalkRun(network, Quiet, es);
            && (t.daemon.Some? ==> Starts(network, t.daemon.value.identity) && !("0x" <= t.daemon.value.identity.vkeyHash))
            && (t.daemon.Some? && t.phase.Between? ==> Clean(t.daemon.value))
            && (TalkEnabled(network, t, ReadAnswer) ==>
                  OwnAnswer(t.daemon.value, t.phase.job, MadeIn(network, Quiet, es, {})))
  {
    RunPairs(network, Quiet, es, {});
    var t := TalkRun(network, Quiet, es);
    if t.daemon.Some? { StartsExactlyWhen(network, t.daemon.value.identity); }
  }

  // ---------------------------------------------------------------- dropped reads

  /** The job is failed for good: FINISH_ERROR will not requeue it. */
  predicate FailsForGood(outcome: Result<DaemonProofResponse, WorkerFailure>) {
    outcome.Failure? && !outcome.error.retryable
  }

  /** When a heartbeat tick drops the read half-way. The daemon is kept unclean exactly if the worker then
      sees text and the work had timed out: it has exited with 75. The job fails for good whenever the worker
      sees such a tail, whatever the work came to; a tail that is not UTF-8 only costs a retry. */
  lemma LostPrefixMatters(network: string, t: Talk, made: set<Artifact>, cut: Cut)
    requires Paired(network, t, made) && TalkEnabled(network, t, ReadAnswer)
    ensures var (p, job, after) := (t.daemon.value, t.phase.job, ReadCut(t, cut));
            && ((after.daemon.Some? ==> Clean(after.daemon.value))
                <==> !(cut.TailOnly? && p.exit == Some(TIMEOUT_EXIT_CODE)))
            && (FailsForGood(Verdict(job, p.unread[0], cut))
                <==> cut.TailOnly? || (cut.WholeLine? && FailsForGood(Classify(job, p.unread[0]))))
            && (cut.WholeLine? && p.exit == Some(TIMEOUT_EXIT_CODE) ==> !FailsForGood(Classify(job, p.unread[0])))
            && (cut.Garbled? ==> after == Quiet)
  {
    var p, job := t.daemon.value, t.phase.job;
    var work := WorkBehind(p, job, made);
    ClassifyAnswer(job, p.identity, work);
  }

  /** Some session from the start comes to `t`. */
  ghost predicate TalkComesTo(network: string, t: Talk) {
    exists es :: TalkPossible(network, Quiet, es) && TalkRun(network, Quiet, es) == t
  }

  lemma {:induction false} OneMoreEvent(network: string, t: Talk, es: seq<TalkEvent>, e: TalkEvent)
    requires TalkPossible(network, t, es) && TalkEnabled(network, TalkRun(network, t, es), e)
    ensures TalkPossible(network, t, es + [e])
    ensures TalkRun(network, t, es + [e]) == TalkStep(network, TalkRun(network, t, es), e)
    decreases |es|
  {
    if es == [] {
      assert (es + [e])[1..] == [];
    } else {
      assert (es + [e])[1..] == es[1..] + [e];
      OneMoreEvent(network, TalkStep(network, t, es[0]), es[1..], e);
    }
  }

  lemma TalkComesFurther(network: string, t: Talk, e: TalkEvent)
    requires TalkComesTo(network, t) && TalkEnabled(network, t, e)
    ensures TalkComesTo(network, TalkStep(network, t, e))
  {
    var es :| TalkPossible(network, Quiet, es) && TalkRun(network, Quiet, es) == t;
    OneMoreEvent(network, Quiet, es, e);
  }

  function Asked(identity: DaemonIdentity, job: ProofJob): Talk {
    Talk(Some(Pipe(identity, [job.request], false, 0, [], None)), Waiting(job))
  }

  /** A daemon asked for one job, its work timed out, its answer unread. */
  function TimedOutUnread(identity: DaemonIdentity, job: ProofJob, text: string): Talk {
    var answer := Answer(identity, job.request, TimedOut(ProvePhase, text));
    Talk(Some(Pipe(identity, [job.request], false, 1, [answer], Some(TIMEOUT_EXIT_CODE))), Waiting(job))
  }

  lemma AskedReached(network: string, identity: DaemonIdentity, job: ProofJob)
    requires Starts(network, identity) && IdentityMatches(job, identity)
    ensures TalkComesTo(network, Asked(identity, job))
  {
    var a := Talk(Some(Pipe(identity, [], false, 0, [], None)), Between);
    var b := Talk(a.daemon, Writing(job));
    assert TalkPossible(network, Quiet, []) && TalkRun(network, Quiet, []) == Quiet;
    TalkComesFurther(network, Quiet, StartDaemon(identity));
    TalkComesFurther(network, a, BeginWrite(job));
    assert [] + [job.request] == [job.request];
    TalkComesFurther(network, b, EndWrite);
  }

  lemma TimedOutReached(network: string, identity: DaemonIdentity, job: ProofJob, text: string)
    requires Starts(network, identity) && IdentityMatches(job, identity)
    ensures TalkComesTo(network, TimedOutUnread(identity, job, text))
  {
    var work := TimedOut(ProvePhase, text);
    AskedReached(network, identity, job);
    assert [] + [Answer(identity, job.request, work)] == [Answer(identity, job.request, work)];
    TalkComesFurther(network, Asked(identity, job), DaemonAnswers(work));
  }

  /** It happens: every daemon that starts can come to an unread timeout answer for every job it matches, and
      a tail read there fails the job for good and keeps a daemon that has exited. */
  lemma TimeoutAnswerCanBeCut(network: string, identity: DaemonIdentity, job: ProofJob, text: string)
    requires Starts(network, identity) && IdentityMatches(job, identity)
    ensures var t := TimedOutUnread(identity, job, text);
            && TalkComesTo(network, t) && TalkEnabled(network, t, ReadAnswer)
            && ReadCut(t, TailOnly).daemon.Some? && ReadCut(t, TailOnly).daemon.value.exit == Some(TIMEOUT_EXIT_CODE)
            && FailsForGood(Verdict(job, t.daemon.value.unread[0], TailOnly))
            && !FailsForGood(Verdict(job, t.daemon.value.unread[0], WholeLine))
  {
    TimedOutReached(network, identity, job, text);
  }
}
