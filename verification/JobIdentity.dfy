/** The job id: what is hashed, that it can be read back, and what an accepted job is committed to.
    SHA-256 and the JSON serialisation are parameters; nothing is assumed of them but their types. */
module JobIdentity {
  import opened Wrappers
  import opened ProofProtocol
  import opened Bytes

  datatype Crypto = Crypto(sha256: seq<Byte> -> Digest, toJson: DaemonRequest -> seq<Byte>)

  /** Two different inputs with one hash. */
  predicate Collide(c: Crypto, x: seq<Byte>, y: seq<Byte>) {
    x != y && c.sha256(x) == c.sha256(y)
  }

  /** What `computed_job_id` feeds the hasher, field by field. */
  datatype Parts = Parts(
    schemaVersion: U32,
    network: seq<Byte>,
    height: U32,
    parentCheckpoint: Digest,
    inputFingerprint: Digest,
    guestId: seq<Byte>,
    blockElf: Digest,
    vkey: Digest,
    requestJson: seq<Byte>)

  const U32_LIMIT := 0x1_0000_0000

  /** `hash_length_prefixed` does not panic on these lengths. */
  predicate Encodable(p: Parts) {
    |p.network| < U32_LIMIT && |p.guestId| < U32_LIMIT && |p.requestJson| < U32_LIMIT
  }

  function Prefixed(bytes: seq<Byte>): seq<Byte> { BeBytes(|bytes|, 4) + bytes }

  /** The last four fields. */
  function EncodeTail(p: Parts): seq<Byte> {
    Prefixed(p.guestId) + (p.blockElf + (p.vkey + Prefixed(p.requestJson)))
  }

  function Encode(p: Parts): seq<Byte> {
    BeBytes(p.schemaVersion, 4) + (Prefixed(p.network) + (BeBytes(p.height, 4) + (p.parentCheckpoint
    + (p.inputFingerprint + EncodeTail(p)))))
  }

  // ---------------------------------------------------------------- reading a preimage back

  /** The first `n` bytes and the rest. */
  function Take(bytes: seq<Byte>, n: nat): (r: Option<(seq<Byte>, seq<Byte>)>)
    ensures r.Some? ==> |r.value.0| == n && r.value.0 + r.value.1 == bytes
  {
    if n <= |bytes| then Some((bytes[..n], bytes[n..])) else None
  }

  function TakePrefixed(bytes: seq<Byte>): Option<(seq<Byte>, seq<Byte>)> {
    var length := Take(bytes, 4);
    if length.None? then None else Take(length.value.1, FromBe(length.value.0))
  }

  datatype Tail = Tail(guestId: seq<Byte>, blockElf: Digest, vkey: Digest, requestJson: seq<Byte>)

  function ParseTail(bytes: seq<Byte>): Option<Tail> {
    var g := TakePrefixed(bytes); if g.None? then None else
    var h := Take(g.value.1, 32); if h.None? then None else
    var i := Take(h.value.1, 32); if i.None? then None else
    var j := TakePrefixed(i.value.1); if j.None? || j.value.1 != [] then None else
    Some(Tail(g.value.0, h.value.0, i.value.0, j.value.0))
  }

  function Parse(bytes: seq<Byte>): Option<Parts> {
    var a := Take(bytes, 4); if a.None? then None else
    var b := TakePrefixed(a.value.1); if b.None? then None else
    var d := Take(b.value.1, 4); if d.None? then None else
    var e := Take(d.value.1, 32); if e.None? then None else
    var f := Take(e.value.1, 32); if f.None? then None else
    var t := ParseTail(f.value.1); if t.None? then None else
    FourBytes(a.value.0); FourBytes(d.value.0);
    Some(Parts(FromBe(a.value.0), b.value.0, FromBe(d.value.0), e.value.0, f.value.0,
               t.value.guestId, t.value.blockElf, t.value.vkey, t.value.requestJson))
  }

  lemma FourBytes(b: seq<Byte>)
    requires |b| == 4
    ensures FromBe(b) < U32_LIMIT && BeBytes(FromBe(b), 4) == b
  {
    BeInverse(b);
    assert Pow256(4) == U32_LIMIT;
  }

  lemma TakeFirst(head: seq<Byte>, rest: seq<Byte>)
    ensures Take(head + rest, |head|) == Some((head, rest))
  {
    assert (head + rest)[..|head|] == head && (head + rest)[|head|..] == rest;
  }

  lemma TakePrefixedFirst(bytes: seq<Byte>, rest: seq<Byte>)
    requires |bytes| < U32_LIMIT
    ensures TakePrefixed(Prefixed(bytes) + rest) == Some((bytes, rest))
  {
    assert Pow256(4) == U32_LIMIT;
    BeRoundTrip(|bytes|, 4);
    assert Prefixed(bytes) + rest == BeBytes(|bytes|, 4) + (bytes + rest);
    TakeFirst(BeBytes(|bytes|, 4), bytes + rest);
    TakeFirst(bytes, rest);
  }

  lemma TakePrefixedSound(bytes: seq<Byte>)
    ensures var r := TakePrefixed(bytes);
            r.Some? ==> |r.value.0| < U32_LIMIT && Prefixed(r.value.0) + r.value.1 == bytes
  {
    if TakePrefixed(bytes).Some? {
      var (length, rest) := Take(bytes, 4).value;
      FourBytes(length);
      var (body, tail) := Take(rest, FromBe(length)).value;
      assert Prefixed(body) + tail == length + (body + tail);
    }
  }

  lemma ParseTailUndoes(p: Parts)
    requires Encodable(p)
    ensures ParseTail(EncodeTail(p)) == Some(Tail(p.guestId, p.blockElf, p.vkey, p.requestJson))
  {
    var j := Prefixed(p.requestJson);
    var i := p.vkey + j;
    var h := p.blockElf + i;
    TakePrefixedFirst(p.guestId, h);
    TakeFirst(p.blockElf, i);
    TakeFirst(p.vkey, j);
    assert j + [] == j;
    TakePrefixedFirst(p.requestJson, []);
  }

  /** The preimage determines every field: a parser undoes the encoder for all field lengths below 2^32. */
  lemma ParseUndoesEncode(p: Parts)
    requires Encodable(p)
    ensures Parse(Encode(p)) == Some(p)
  {
    assert Pow256(4) == U32_LIMIT;
    BeRoundTrip(p.schemaVersion, 4);
    BeRoundTrip(p.height, 4);
    ParseTailUndoes(p);
    var g := EncodeTail(p);
    var f := p.inputFingerprint + g;
    var e := p.parentCheckpoint + f;
    var d := BeBytes(p.height, 4) + e;
    TakeFirst(BeBytes(p.schemaVersion, 4), Prefixed(p.network) + d);
    TakePrefixedFirst(p.network, d);
    TakeFirst(BeBytes(p.height, 4), e);
    TakeFirst(p.parentCheckpoint, f);
    TakeFirst(p.inputFingerprint, g);
  }

  lemma EncodeTailUndoes(bytes: seq<Byte>, p: Parts)
    requires ParseTail(bytes) == Some(Tail(p.guestId, p.blockElf, p.vkey, p.requestJson))
    ensures |p.guestId| < U32_LIMIT && |p.requestJson| < U32_LIMIT && EncodeTail(p) == bytes
  {
    var g := TakePrefixed(bytes).value;
    var h := Take(g.1, 32).value;
    var i := Take(h.1, 32).value;
    TakePrefixedSound(bytes);
    TakePrefixedSound(i.1);
    assert Prefixed(p.requestJson) + [] == Prefixed(p.requestJson);
  }

  /** And the encoder undoes the parser: what parses is the encoding of exactly what it parses to. */
  lemma EncodeUndoesParse(bytes: seq<Byte>)
    ensures Parse(bytes).Some? ==> Encodable(Parse(bytes).value) && Encode(Parse(bytes).value) == bytes
  {
    if Parse(bytes).Some? {
      var p := Parse(bytes).value;
      var a := Take(bytes, 4).value;
      var b := TakePrefixed(a.1).value;
      var d := Take(b.1, 4).value;
      var e := Take(d.1, 32).value;
      var f := Take(e.1, 32).value;
      FourBytes(a.0);
      FourBytes(d.0);
      TakePrefixedSound(a.1);
      EncodeTailUndoes(f.1, p);
    }
  }

  lemma EncodeInjective(p: Parts, q: Parts)
    requires Encodable(p) && Encodable(q) && Encode(p) == Encode(q)
    ensures p == q
  {
    ParseUndoesEncode(p);
    ParseUndoesEncode(q);
  }

  // ---------------------------------------------------------------- the id of a job

  function AsBytes(t: Text): seq<Byte> { seq(|t|, i requires 0 <= i < |t| => t[i] as int) }

  lemma AsBytesInjective(t: Text, u: Text)
    requires AsBytes(t) == AsBytes(u)
    ensures t == u
  {
    forall i | 0 <= i < |t| ensures t[i] == u[i] {
      assert AsBytes(t)[i] == AsBytes(u)[i];
    }
  }

  predicate DigestsDecode(job: ProofJob) {
    && DecodeHex32(job.parentCheckpointSha256).Success? && DecodeHex32(job.inputFingerprint).Success?
    && DecodeHex32(job.blockElfSha256).Success? && DecodeHex32(job.vkeyHash).Success?
  }

  function PartsOf(c: Crypto, job: ProofJob): Parts
    requires DigestsDecode(job)
  {
    Parts(job.schemaVersion, AsBytes(job.network), job.height,
          DecodeHex32(job.parentCheckpointSha256).value, DecodeHex32(job.inputFingerprint).value,
          AsBytes(job.guestId), DecodeHex32(job.blockElfSha256).value, DecodeHex32(job.vkeyHash).value,
          c.toJson(job.request))
  }

  /** `computed_input_fingerprint`. */
  function Fingerprint(c: Crypto, request: DaemonRequest): string {
    HexEncode(c.sha256(c.toJson(request)))
  }

  /** `computed_job_id`; None is its panic on a field of 2^32 bytes or more. */
  function JobId(c: Crypto, job: ProofJob): Option<string>
    requires DigestsDecode(job)
  {
    var p := PartsOf(c, job);
    if Encodable(p) then Some(HexEncode(c.sha256(Encode(p)))) else None
  }

  lemma PartsInOrder(p: Parts)
    ensures Encode(p) == BeBytes(p.schemaVersion, 4) + BeBytes(|p.network|, 4) + p.network + BeBytes(p.height, 4)
                         + p.parentCheckpoint + p.inputFingerprint + BeBytes(|p.guestId|, 4) + p.guestId
                         + p.blockElf + p.vkey + BeBytes(|p.requestJson|, 4) + p.requestJson
  {
  }

  /** The preimage and the id, from the job's own fields: schema version, network, height, parent checkpoint,
      input fingerprint, guest, ELF digest, key hash and request JSON, in this order, the three of variable
      length each after its length. There is no id exactly when one of those lengths needs more than 32 bits. */
  lemma JobIdExact(c: Crypto, job: ProofJob)
    requires DigestsDecode(job)
    ensures var (network, guestId) := (seq(|job.network|, i requires 0 <= i < |job.network| => job.network[i] as int),
                                       seq(|job.guestId|, i requires 0 <= i < |job.guestId| => job.guestId[i] as int));
            var json := c.toJson(job.request);
            && Encode(PartsOf(c, job)) ==
                 BeBytes(job.schemaVersion, 4) + BeBytes(|network|, 4) + network + BeBytes(job.height, 4)
                 + DecodeHex32(job.parentCheckpointSha256).value + DecodeHex32(job.inputFingerprint).value
                 + BeBytes(|guestId|, 4) + guestId
                 + DecodeHex32(job.blockElfSha256).value + DecodeHex32(job.vkeyHash).value
                 + BeBytes(|json|, 4) + json
            && JobId(c, job) ==
                 if |job.network| < 0x1_0000_0000 && |job.guestId| < 0x1_0000_0000 && |json| < 0x1_0000_0000
                 then Some(HexEncode(c.sha256(Encode(PartsOf(c, job))))) else None
  {
    var (network, guestId) := (seq(|job.network|, i requires 0 <= i < |job.network| => job.network[i] as int),
                               seq(|job.guestId|, i requires 0 <= i < |job.guestId| => job.guestId[i] as int));
    assert AsBytes(job.network) == network && AsBytes(job.guestId) == guestId;
    PartsInOrder(PartsOf(c, job));
  }

  /** The incremental hasher. */
  class Hasher {
    var absorbed: seq<Byte>

    constructor ()
      ensures absorbed == []
    {
      absorbed := [];
    }

    method Update(bytes: seq<Byte>)
      modifies this
      ensures absorbed == old(absorbed) + bytes
    {
      absorbed := absorbed + bytes;
    }

    /** An update, with `rest` still to come: what will have been absorbed in the end is the same. */
    method UpdateBefore(bytes: seq<Byte>, ghost rest: seq<Byte>)
      modifies this
      ensures absorbed == old(absorbed) + bytes
      ensures absorbed + rest == old(absorbed) + (bytes + rest)
    {
      Update(bytes);
      assert absorbed + rest == old(absorbed) + (bytes + rest);
    }

    /** `hash_length_prefixed`; false is its panic. */
    method UpdatePrefixed(bytes: seq<Byte>, ghost rest: seq<Byte>) returns (ok: bool)
      modifies this
      ensures ok == (|bytes| < U32_LIMIT)
      ensures ok ==> absorbed == old(absorbed) + Prefixed(bytes)
      ensures ok ==> absorbed + rest == old(absorbed) + (Prefixed(bytes) + rest)
    {
      if |bytes| >= U32_LIMIT { return false; }
      Update(BeBytes(|bytes|, 4));
      Update(bytes);
      assert absorbed == old(absorbed) + Prefixed(bytes);
      assert absorbed + rest == old(absorbed) + (Prefixed(bytes) + rest);
      return true;
    }
  }

  /** The nine updates of one hasher in `computed_job_id`; None is the panic of a length prefix. */
  method HashFields(c: Crypto, p: Parts) returns (id: Option<string>)
    ensures id == if Encodable(p) then Some(HexEncode(c.sha256(Encode(p)))) else None
  {
    ghost var j := Prefixed(p.requestJson);
    ghost var i := p.vkey + j;
    ghost var h := p.blockElf + i;
    ghost var g := Prefixed(p.guestId) + h;
    ghost var f := p.inputFingerprint + g;
    ghost var e := p.parentCheckpoint + f;
    ghost var d := BeBytes(p.height, 4) + e;
    var hasher := new Hasher();
    hasher.Update(BeBytes(p.schemaVersion, 4));
    var ok := hasher.UpdatePrefixed(p.network, d);
    if !ok { return None; }
    hasher.UpdateBefore(BeBytes(p.height, 4), e);
    hasher.UpdateBefore(p.parentCheckpoint, f);
    hasher.UpdateBefore(p.inputFingerprint, g);
    ok := hasher.UpdatePrefixed(p.guestId, h);
    if !ok { return None; }
    hasher.UpdateBefore(p.blockElf, i);
    hasher.UpdateBefore(p.vkey, j);
    assert j + [] == j;
    ok := hasher.UpdatePrefixed(p.requestJson, []);
    if !ok { return None; }
    assert hasher.absorbed == Encode(p);
    return Some(HexEncode(c.sha256(hasher.absorbed)));
  }

  /** `computed_job_id`: the four digests decoded, the request serialised, and all hashed in order. */
  method ComputeJobId(c: Crypto, job: ProofJob) returns (id: Option<string>)
    requires DigestsDecode(job)
    ensures id == JobId(c, job)
    ensures var (network, guestId) := (seq(|job.network|, i requires 0 <= i < |job.network| => job.network[i] as int),
                                       seq(|job.guestId|, i requires 0 <= i < |job.guestId| => job.guestId[i] as int));
            var json := c.toJson(job.request);
            id == if |network| >= 0x1_0000_0000 || |guestId| >= 0x1_0000_0000 || |json| >= 0x1_0000_0000 then None
                  else Some(HexEncode(c.sha256(
                    BeBytes(job.schemaVersion, 4) + BeBytes(|network|, 4) + network + BeBytes(job.height, 4)
                    + DecodeHex32(job.parentCheckpointSha256).value + DecodeHex32(job.inputFingerprint).value
                    + BeBytes(|guestId|, 4) + guestId
                    + DecodeHex32(job.blockElfSha256).value + DecodeHex32(job.vkeyHash).value
                    + BeBytes(|json|, 4) + json)))
  {
    id := HashFields(c, PartsOf(c, job));
    JobIdExact(c, job);
  }

  // ---------------------------------------------------------------- validation

  datatype Rejection =
    | WrongSchema | WrongNetwork | BadDigest(field: string)
    | FingerprintMismatch | JobIdMismatch | EmptyRequestId

  /** `validate_job` either accepts, rejects for good, or hits the panic in `computed_job_id`. */
  datatype Verdict = Accepted | Rejected(why: Rejection) | Panics

  function ValidateJob(c: Crypto, job: ProofJob, network: string): Verdict {
    if job.schemaVersion != PROOF_SCHEMA_VERSION then Rejected(WrongSchema)
    else if job.network != network then Rejected(WrongNetwork)
    else if DecodeHex32(job.parentCheckpointSha256).Failure? then Rejected(BadDigest("parent checkpoint SHA"))
    else if DecodeHex32(job.inputFingerprint).Failure? then Rejected(BadDigest("input fingerprint"))
    else if DecodeHex32(job.blockElfSha256).Failure? then Rejected(BadDigest("ELF SHA"))
    else if DecodeHex32(job.vkeyHash).Failure? then Rejected(BadDigest("vkey hash"))
    else if Fingerprint(c, job.request) != job.inputFingerprint then Rejected(FingerprintMismatch)
    else
      var id := JobId(c, job);
      if id.None? then Panics
      else if id.value != job.jobId then Rejected(JobIdMismatch)
      else if job.request.requestId == "" then Rejected(EmptyRequestId)
      else Accepted
  }

  /** A job whose id and fingerprint are those of its own request. */
  predicate Authentic(c: Crypto, network: string, job: ProofJob) {
    && job.schemaVersion == PROOF_SCHEMA_VERSION && job.network == network
    && DigestsDecode(job) && Encodable(PartsOf(c, job))
    && DecodeHex32(job.jobId) == Success(c.sha256(Encode(PartsOf(c, job))))
    && DecodeHex32(job.inputFingerprint) == Success(c.sha256(c.toJson(job.request)))
  }

  /** Sixty-four lower-case hex digits. */
  predicate IsHexDigest(s: string) {
    |s| == 64 && forall i :: 0 <= i < |s| ==> '0' <= s[i] <= '9' || 'a' <= s[i] <= 'f'
  }

  /** Exactly the authentic jobs with a request id are accepted: schema version 2, the worker's network, four
      well-formed digests, a fingerprint that is the hash of the request, and the job's own id. */
  lemma ValidateJobExact(c: Crypto, job: ProofJob, network: string)
    ensures ValidateJob(c, job, network).Accepted? <==> Authentic(c, network, job) && job.request.requestId != ""
    ensures DigestsDecode(job) <==>
              IsHexDigest(job.parentCheckpointSha256) && IsHexDigest(job.inputFingerprint)
              && IsHexDigest(job.blockElfSha256) && IsHexDigest(job.vkeyHash)
    ensures ValidateJob(c, job, network).Accepted? <==>
              && job.schemaVersion == 2 && job.network == network && DigestsDecode(job)
              && job.inputFingerprint == HexEncode(c.sha256(c.toJson(job.request)))
              && JobId(c, job) == Some(job.jobId) && job.request.requestId != ""
  {
    DecodeHex32Bijection(job.inputFingerprint, c.sha256(c.toJson(job.request)));
    DecodeHex32Accepts(job.parentCheckpointSha256);
    DecodeHex32Accepts(job.inputFingerprint);
    DecodeHex32Accepts(job.blockElfSha256);
    DecodeHex32Accepts(job.vkeyHash);
    if DigestsDecode(job) {
      DecodeHex32Bijection(job.jobId, c.sha256(Encode(PartsOf(c, job))));
    }
  }

  /** Why a job is rejected is the first of these that is wrong with it. */
  lemma FirstFaultDecides(c: Crypto, job: ProofJob, network: string)
    ensures ValidateJob(c, job, network) == Rejected(WrongSchema) <==> job.schemaVersion != 2
    ensures ValidateJob(c, job, network) == Rejected(WrongNetwork) <==> job.schemaVersion == 2 && job.network != network
    ensures (ValidateJob(c, job, network).Rejected? && ValidateJob(c, job, network).why.BadDigest?) <==>
              job.schemaVersion == 2 && job.network == network && !DigestsDecode(job)
    ensures ValidateJob(c, job, network).Rejected? && ValidateJob(c, job, network).why.BadDigest? ==>
              ValidateJob(c, job, network).why.field ==
                if DecodeHex32(job.parentCheckpointSha256).Failure? then "parent checkpoint SHA"
                else if DecodeHex32(job.inputFingerprint).Failure? then "input fingerprint"
                else if DecodeHex32(job.blockElfSha256).Failure? then "ELF SHA" else "vkey hash"
    ensures ValidateJob(c, job, network) == Rejected(FingerprintMismatch) <==>
              && job.schemaVersion == 2 && job.network == network && DigestsDecode(job)
              && job.inputFingerprint != HexEncode(c.sha256(c.toJson(job.request)))
    ensures job.schemaVersion == 2 && job.network == network && DigestsDecode(job)
            && job.inputFingerprint == HexEncode(c.sha256(c.toJson(job.request))) ==>
              && (ValidateJob(c, job, network).Panics? <==> JobId(c, job).None?)
              && (ValidateJob(c, job, network) == Rejected(JobIdMismatch) <==>
                    JobId(c, job).Some? && JobId(c, job).value != job.jobId)
              && (ValidateJob(c, job, network) == Rejected(EmptyRequestId) <==>
                    JobId(c, job) == Some(job.jobId) && job.request.requestId == "")
    ensures ValidateJob(c, job, network).Panics? ==>
              |job.network| >= 0x1_0000_0000 || |job.guestId| >= 0x1_0000_0000 || |c.toJson(job.request)| >= 0x1_0000_0000
  {
    if DigestsDecode(job) { JobIdExact(c, job); }
  }

  lemma SameDigest(s: string, t: string)
    requires DecodeHex32(s).Success? && DecodeHex32(s) == DecodeHex32(t)
    ensures s == t
  {
    DecodeHex32Bijection(s, DecodeHex32(s).value);
    DecodeHex32Bijection(t, DecodeHex32(s).value);
  }

  lemma HexEncodeInjective(a: seq<Byte>, b: seq<Byte>)
    requires HexEncode(a) == HexEncode(b)
    ensures a == b
  {
    EncodeThenDecode(a);
    EncodeThenDecode(b);
  }

  /** An accepted id commits to the job: two accepted jobs with one id have the same identity fields
      and the same request JSON, or their two preimages are a SHA-256 collision. */
  lemma JobIdCommits(c: Crypto, job: ProofJob, other: ProofJob, network: string, network': string)
    requires ValidateJob(c, job, network).Accepted? && ValidateJob(c, other, network').Accepted?
    requires job.jobId == other.jobId
    ensures (job == other.(request := job.request) && c.toJson(job.request) == c.toJson(other.request))
            || Collide(c, Encode(PartsOf(c, job)), Encode(PartsOf(c, other)))
    ensures Collide(c, Encode(PartsOf(c, job)), Encode(PartsOf(c, other))) ==>
              Encode(PartsOf(c, job)) != Encode(PartsOf(c, other))
  {
    var p, q := PartsOf(c, job), PartsOf(c, other);
    HexEncodeInjective(c.sha256(Encode(p)), c.sha256(Encode(q)));
    if Encode(p) == Encode(q) {
      EncodeInjective(p, q);
      AsBytesInjective(job.network, other.network);
      AsBytesInjective(job.guestId, other.guestId);
      SameDigest(job.parentCheckpointSha256, other.parentCheckpointSha256);
      SameDigest(job.inputFingerprint, other.inputFingerprint);
      SameDigest(job.blockElfSha256, other.blockElfSha256);
      SameDigest(job.vkeyHash, other.vkeyHash);
    }
  }
}
