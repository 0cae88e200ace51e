/** The six Lua scripts as functions on the structured store, and runs of a system in which any
    number of producers and workers call them in any order. */
module LeaseQueue {
  import opened Wrappers
  import opened ProofProtocol

  datatype Store = Store(
    queue: seq<string>,
    notify: seq<string>,
    leases: map<string, nat>,
    attempts: map<string, nat>,
    payloads: map<string, Payload>,
    states: map<string, JobState>,
    results: map<string, ResultDoc>)

  const EmptyStore := Store([], [], map[], map[], map[], map[], map[])

  /** The attempt counter; INCR and `tonumber(GET ...) or 0` both read a missing key as 0. */
  function Counter(s: Store, id: string): nat {
    if id in s.attempts then s.attempts[id] else 0
  }

  /** `tonumber(t[1]) * 1000 + math.floor(tonumber(t[2]) / 1000)` for Redis TIME at `nowUs`. */
  function NowMs(nowUs: nat): (ms: nat)
    ensures ms * 1000 <= nowUs < ms * 1000 + 1000
  {
    nowUs / 1_000_000 * 1000 + nowUs % 1_000_000 / 1000
  }

  /** The guard shared by HEARTBEAT, COMPLETE, FINISH_ERROR and FAIL_INVALID_CLAIM. */
  predicate Holds(s: Store, id: string, worker: string, lease: string, now: nat) {
    id in s.states && s.states[id].MatchesLease(worker, lease) && s.states[id].leaseExpiresMs > now
  }

  /** The payload is the ProofJob its key names: `ClaimOutcome::Valid`. */
  predicate WellFormed(s: Store, id: string) { id in s.payloads && s.payloads[id].Job? && s.payloads[id].job.jobId == id }

  datatype ClaimReply = ClaimReply(jobId: string, payload: Payload, attempt: nat)

  function Claim(s: Store, worker: string, lease: string, expires: nat): (Store, Option<ClaimReply>)
    decreases |s.queue|
  {
    if s.queue == [] then (s, None)
    else
      var id := s.queue[0];
      var popped := s.(queue := s.queue[1..]);
      if id in s.payloads && id in s.states && s.states[id].Queued? then
        var attempt := Counter(s, id) + 1;
        (popped.(attempts := s.attempts[id := attempt],
                 states := s.states[id := Claimed(worker, lease, expires, attempt)],
                 leases := s.leases[id := expires]),
         Some(ClaimReply(id, s.payloads[id], attempt)))
      else Claim(popped, worker, lease, expires)
  }

  function Heartbeat(s: Store, id: string, worker: string, lease: string, leaseMs: nat, now: nat): (Store, nat) {
    if !Holds(s, id, worker, lease, now) then (s, 0)
    else
      (s.(states := s.states[id := s.states[id].(leaseExpiresMs := now + leaseMs)],
          leases := s.leases[id := now + leaseMs]), 1)
  }

  function Complete(s: Store, id: string, worker: string, lease: string, result: ResultDoc, now: nat): (Store, nat) {
    if !Holds(s, id, worker, lease, now) then (s, 0)
    else
      (s.(results := s.results[id := result],
          states := s.states[id := Completed(now, s.states[id].attempt)],
          leases := s.leases - {id},
          notify := [id] + s.notify), 1)
  }

  function FinishError(s: Store, id: string, worker: string, lease: string, retryable: bool, maxAttempts: nat,
                       result: ResultDoc, error: string, now: nat): (Store, nat)
  {
    if !Holds(s, id, worker, lease, now) then (s, 0)
    else
      var released := s.(leases := s.leases - {id});
      if retryable && s.states[id].attempt < maxAttempts then
        (released.(states := s.states[id := Queued], queue := s.queue + [id]), 2)
      else
        (released.(results := s.results[id := result],
                   states := s.states[id := Failed(now, s.states[id].attempt, error)],
                   notify := [id] + s.notify), 1)
  }

  function FailInvalid(s: Store, id: string, worker: string, lease: string, error: string, now: nat): (Store, nat) {
    if !Holds(s, id, worker, lease, now) then (s, 0)
    else
      (s.(states := s.states[id := Failed(now, s.states[id].attempt, error)],
          leases := s.leases - {id},
          notify := [id] + s.notify), 1)
  }

  function Max(a: nat, b: nat): nat { if a < b then b else a }

  /** What a sweep has done: the store it leaves, its two counts, and whether the script raised. */
  datatype Swept = Swept(store: Store, requeued: nat, failed: nat, raised: bool)

  /** What one pass of the sweep loop does to an entry before its ZREM. Reading a member of a number,
      a boolean or null raises. */
  function Resolve(s: Store, id: string, maxAttempts: nat, now: nat): Swept {
    if id in s.states && s.states[id].Claimed? && s.states[id].leaseExpiresMs <= now then
      var attempt := Max(Counter(s, id), s.states[id].attempt);
      if attempt >= maxAttempts then
        match if id in s.payloads then LuaDecode(s.payloads[id]) else Undecodable
        case Undecodable => Swept(s, 0, 0, false)
        case Unindexable => Swept(s, 0, 0, true)
        case Members(identity) =>
          Swept(s.(results := s.results[id := ResultDoc(identity, Errored(LEASE_EXPIRED_MAX_ATTEMPTS_ERROR))],
                   states := s.states[id := Failed(now, attempt, LEASE_EXPIRED_MAX_ATTEMPTS_ERROR)],
                   notify := [id] + s.notify), 0, 1, false)
      else
        Swept(s.(states := s.states[id := Queued], queue := s.queue + [id]), 1, 0, false)
    else Swept(s, 0, 0, false)
  }

  /** One pass of the sweep loop, with the unconditional ZREM unless the script raised before it. */
  function SweepOne(s: Store, id: string, maxAttempts: nat, now: nat): Swept {
    var r := Resolve(s, id, maxAttempts, now);
    if r.raised then r else r.(store := r.store.(leases := r.store.leases - {id}))
  }

  /** The sweep loop over a batch. An error ends it; what it has written until then stays. */
  function Sweep(s: Store, ids: seq<string>, maxAttempts: nat, now: nat): Swept {
    if ids == [] then Swept(s, 0, 0, false)
    else
      var before := Sweep(s, ids[..|ids| - 1], maxAttempts, now);
      if before.raised then before else
      var last := SweepOne(before.store, ids[|ids| - 1], maxAttempts, now);
      Swept(last.store, before.requeued + last.requeued, before.failed + last.failed, last.raised)
  }

  ghost predicate Distinct<T(!new)>(xs: seq<T>) {
    forall i, j :: 0 <= i < j < |xs| ==> xs[i] != xs[j]
  }

  predicate Expired(leases: map<string, nat>, id: string, now: nat) {
    id in leases && leases[id] <= now
  }

  /** The order of names that breaks ties between equal scores: bytewise, a prefix first. */
  predicate NameLe(a: string, b: string) {
    a == [] || (b != [] && (a[0] < b[0] || (a[0] == b[0] && NameLe(a[1..], b[1..]))))
  }

  /** The order of a sorted set: by score, then by name. */
  predicate Precedes(leases: map<string, nat>, a: string, b: string)
    requires a in leases && b in leases
  {
    leases[a] < leases[b] || (leases[a] == leases[b] && NameLe(a, b))
  }

  /** What ZRANGEBYSCORE -inf now LIMIT 0 batch returns: the first expired members in that order. */
  ghost predicate IsBatch(leases: map<string, nat>, now: nat, batch: nat, ids: seq<string>) {
    && Distinct(ids)
    && |ids| <= batch
    && (forall i :: 0 <= i < |ids| ==> Expired(leases, ids[i], now))
    && (forall i, j :: 0 <= i < j < |ids| ==> Precedes(leases, ids[i], ids[j]))
    && (forall id :: Expired(leases, id, now) && id !in ids ==>
          |ids| == batch && forall i :: 0 <= i < |ids| ==> Precedes(leases, ids[i], id))
  }

  // ---------------------------------------------------------------- runs

  /** The store, the Redis clock in microseconds, and every lease id handed to a CLAIM so far. */
  datatype World = World(store: Store, nowUs: nat, issued: set<string>) {
    function Now(): nat { NowMs(nowUs) }
  }

  const Start := World(EmptyStore, 0, {})

  datatype Event =
    | Tick(us: nat)
    | Submit(id: string, payload: Payload)
    | DoClaim(worker: string, lease: string, leaseMs: nat)
    | DoHeartbeat(id: string, worker: string, lease: string, leaseMs: nat)
    | DoComplete(id: string, worker: string, lease: string, result: ResultDoc)
    | DoFinishError(id: string, worker: string, lease: string, retryable: bool, maxAttempts: nat,
                    result: ResultDoc, error: string)
    | DoFailInvalid(id: string, worker: string, lease: string, error: string)
    | DoSweep(ids: seq<string>, batch: nat, maxAttempts: nat)

  /** The environment's promises: submitted ids are new, lease ids are new, a sweep gets what
      ZRANGEBYSCORE returns, and no worker's attempt limit exceeds `limit`. A worker may call any
      script with any arguments at any time, which covers every retry and every lost reply. */
  ghost predicate Enabled(limit: nat, w: World, e: Event) {
    match e
    case Submit(id, _) => id !in w.store.payloads && id !in w.store.states
    case DoClaim(_, lease, _) => lease !in w.issued
    case DoFinishError(_, _, _, _, maxAttempts, _, _) => 1 <= maxAttempts <= limit
    case DoSweep(ids, batch, maxAttempts) =>
      1 <= maxAttempts <= limit && IsBatch(w.store.leases, w.Now(), batch, ids)
    case _ => true
  }

  /** Producer side: SET payload, SET Queued, RPUSH. */
  function SubmitTo(s: Store, id: string, payload: Payload): Store {
    s.(payloads := s.payloads[id := payload], states := s.states[id := Queued], queue := s.queue + [id])
  }

  function Apply(w: World, e: Event): World {
    var s, now := w.store, w.Now();
    match e
    case Tick(us) => w.(nowUs := w.nowUs + us)
    case Submit(id, payload) => w.(store := SubmitTo(s, id, payload))
    case DoClaim(worker, lease, leaseMs) =>
      w.(store := Claim(s, worker, lease, now + leaseMs).0, issued := w.issued + {lease})
    case DoHeartbeat(id, worker, lease, leaseMs) => w.(store := Heartbeat(s, id, worker, lease, leaseMs, now).0)
    case DoComplete(id, worker, lease, result) => w.(store := Complete(s, id, worker, lease, result, now).0)
    case DoFinishError(id, worker, lease, retryable, maxAttempts, result, error) =>
      w.(store := FinishError(s, id, worker, lease, retryable, maxAttempts, result, error, now).0)
    case DoFailInvalid(id, worker, lease, error) => w.(store := FailInvalid(s, id, worker, lease, error, now).0)
    case DoSweep(ids, _, maxAttempts) => w.(store := Sweep(s, ids, maxAttempts, now).store)
  }

  /** The integer a guarded script replies with: 0 refused, 1 done, 2 requeued. */
  function Reply(w: World, e: Event): nat {
    var s, now := w.store, w.Now();
    match e
    case DoHeartbeat(id, worker, lease, leaseMs) => Heartbeat(s, id, worker, lease, leaseMs, now).1
    case DoComplete(id, worker, lease, result) => Complete(s, id, worker, lease, result, now).1
    case DoFinishError(id, worker, lease, retryable, maxAttempts, result, error) =>
      FinishError(s, id, worker, lease, retryable, maxAttempts, result, error, now).1
    case DoFailInvalid(id, worker, lease, error) => FailInvalid(s, id, worker, lease, error, now).1
    case _ => 0
  }

  /** A call of one of the four guarded scripts under the given job, worker and lease. */
  predicate CallsUnder(e: Event, id: string, worker: string, lease: string) {
    (e.DoHeartbeat? || e.DoComplete? || e.DoFinishError? || e.DoFailInvalid?)
    && e.id == id && e.worker == worker && e.lease == lease
  }

  ghost predicate Possible(limit: nat, w: World, es: seq<Event>)
    decreases |es|
  {
    es == [] || (Enabled(limit, w, es[0]) && Possible(limit, Apply(w, es[0]), es[1..]))
  }

  function Run(w: World, es: seq<Event>): World
    decreases |es|
  {
    if es == [] then w else Run(Apply(w, es[0]), es[1..])
  }
}
