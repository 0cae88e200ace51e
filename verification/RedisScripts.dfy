/** The six scripts as they run: on one flat keyspace, command by command, with the loops they have.
    Each is proved to do to the keys of its namespace what the function of the same name in
    LeaseQueue does to the structured store, and nothing to any other key. */
module RedisScripts {
  import opened Wrappers
  import opened ProofProtocol
  import opened QueueKeys
  import opened LeaseQueue
  import ExpirySweep

  datatype Entry =
    | ListEntry(items: seq<string>)
    | ScoresEntry(scores: map<string, nat>)
    | CounterEntry(count: nat)
    | PayloadEntry(payload: Payload)
    | StateEntry(state: JobState)
    | ResultEntry(result: ResultDoc)

  type Keyspace = map<string, Entry>

  // ---------------------------------------------------------------- Redis commands

  function ListAt(ks: Keyspace, key: string): seq<string> {
    if key in ks && ks[key].ListEntry? then ks[key].items else []
  }

  function ScoresAt(ks: Keyspace, key: string): map<string, nat> {
    if key in ks && ks[key].ScoresEntry? then ks[key].scores else map[]
  }

  function CountAt(ks: Keyspace, key: string): nat {
    if key in ks && ks[key].CounterEntry? then ks[key].count else 0
  }

  function GetState(ks: Keyspace, key: string): Option<JobState> {
    if key in ks && ks[key].StateEntry? then Some(ks[key].state) else None
  }

  function GetPayload(ks: Keyspace, key: string): Option<Payload> {
    if key in ks && ks[key].PayloadEntry? then Some(ks[key].payload) else None
  }

  /** Redis deletes a list or sorted set that becomes empty. */
  function PutList(ks: Keyspace, key: string, items: seq<string>): Keyspace {
    if items == [] then ks - {key} else ks[key := ListEntry(items)]
  }

  function PutScores(ks: Keyspace, key: string, scores: map<string, nat>): Keyspace {
    if scores == map[] then ks - {key} else ks[key := ScoresEntry(scores)]
  }

  function LPop(ks: Keyspace, key: string): (Keyspace, Option<string>) {
    var items := ListAt(ks, key);
    if items == [] then (ks, None) else (PutList(ks, key, items[1..]), Some(items[0]))
  }

  function LPush(ks: Keyspace, key: string, item: string): Keyspace { PutList(ks, key, [item] + ListAt(ks, key)) }

  function RPush(ks: Keyspace, key: string, item: string): Keyspace { PutList(ks, key, ListAt(ks, key) + [item]) }

  function ZAdd(ks: Keyspace, key: string, score: nat, member: string): Keyspace {
    PutScores(ks, key, ScoresAt(ks, key)[member := score])
  }

  function ZRem(ks: Keyspace, key: string, member: string): Keyspace {
    PutScores(ks, key, ScoresAt(ks, key) - {member})
  }

  function Set(ks: Keyspace, key: string, entry: Entry): Keyspace { ks[key := entry] }

  function Incr(ks: Keyspace, key: string): (Keyspace, nat) {
    var count := CountAt(ks, key) + 1;
    (ks[key := CounterEntry(count)], count)
  }

  // ---------------------------------------------------------------- the structured view

  /** What a slot of the structured store looks like in Redis. */
  function Contents(s: Store, slot: Slot): Option<Entry> {
    match slot
    case QueueSlot => if s.queue == [] then None else Some(ListEntry(s.queue))
    case NotifySlot => if s.notify == [] then None else Some(ListEntry(s.notify))
    case LeasesSlot => if s.leases == map[] then None else Some(ScoresEntry(s.leases))
    case AttemptSlot(id) => if id in s.attempts then Some(CounterEntry(s.attempts[id])) else None
    case JobSlot(id) => if id in s.payloads then Some(PayloadEntry(s.payloads[id])) else None
    case StateSlot(id) => if id in s.states then Some(StateEntry(s.states[id])) else None
    case ResultSlot(id) => if id in s.results then Some(ResultEntry(s.results[id])) else None
  }

  ghost predicate Represents(ks: Keyspace, ns: string, s: Store) {
    forall slot :: Lookup(ks, KeyOf(ns, slot)) == Contents(s, slot)
  }

  ghost predicate OthersKept(before: Keyspace, after: Keyspace, ns: string) {
    forall key :: !Owned(ns, key) ==> Lookup(after, key) == Lookup(before, key)
  }

  /** The keyspace stands for `s`, and differs from `before` only inside the namespace. */
  ghost predicate Tracks(before: Keyspace, ks: Keyspace, ns: string, s: Store) {
    Represents(ks, ns, s) && OthersKept(before, ks, ns)
  }

  lemma TracksItself(ks: Keyspace, ns: string, s: Store)
    requires Represents(ks, ns, s)
    ensures Tracks(ks, ks, ns, s)
  {
  }

  /** A script of one namespace leaves every store of a namespace with no key in common as it was. */
  lemma OtherNamespaceUnaffected(before: Keyspace, after: Keyspace, ns: string, other: string, s: Store)
    requires OthersKept(before, after, ns) && Represents(before, other, s)
    requires !Extends(ns, other) && !Extends(other, ns) && ns != other
    ensures Represents(after, other, s)
  {
    forall slot ensures Lookup(after, KeyOf(other, slot)) == Contents(s, slot) {
      NamespacesShareExactlyWhen(ns, other);
      assert Owned(other, KeyOf(other, slot));
      assert Lookup(before, KeyOf(other, slot)) == Contents(s, slot);
    }
  }

  /** The list, set, counter and documents that stand for a store, under their literal keys. A list or sorted set
      that is empty is not there. */
  ghost predicate StandsAt(ks: Keyspace, ns: string, s: Store, id: string) {
    && Lookup(ks, ns + ":queue") == (if s.queue == [] then None else Some(ListEntry(s.queue)))
    && Lookup(ks, ns + ":notify") == (if s.notify == [] then None else Some(ListEntry(s.notify)))
    && Lookup(ks, ns + ":leases") == (if s.leases == map[] then None else Some(ScoresEntry(s.leases)))
    && Lookup(ks, ns + ":attempt:" + id) == (if id in s.attempts then Some(CounterEntry(s.attempts[id])) else None)
    && Lookup(ks, ns + ":job:" + id) == (if id in s.payloads then Some(PayloadEntry(s.payloads[id])) else None)
    && Lookup(ks, ns + ":state:" + id) == (if id in s.states then Some(StateEntry(s.states[id])) else None)
    && Lookup(ks, ns + ":result:" + id) == (if id in s.results then Some(ResultEntry(s.results[id])) else None)
  }

  lemma SlotStands(ks: Keyspace, ns: string, s: Store, slot: Slot)
    requires forall id :: StandsAt(ks, ns, s, id)
    ensures Lookup(ks, KeyOf(ns, slot)) == Contents(s, slot)
  {
    KeyDeterminesSlot(ns, slot);
    assert StandsAt(ks, ns, s, if slot.AttemptSlot? || slot.JobSlot? || slot.StateSlot? || slot.ResultSlot? then slot.id else "");
  }

  /** Under which literal key each part of a represented store is, and that empty parts have none. */
  lemma RepresentedStands(ks: Keyspace, ns: string, s: Store, id: string)
    requires Represents(ks, ns, s)
    ensures StandsAt(ks, ns, s, id)
    ensures Lookup(ks, ns + ":queue") == if s.queue == [] then None else Some(ListEntry(s.queue))
    ensures Lookup(ks, ns + ":notify") == if s.notify == [] then None else Some(ListEntry(s.notify))
    ensures Lookup(ks, ns + ":leases") == if s.leases == map[] then None else Some(ScoresEntry(s.leases))
    ensures Lookup(ks, ns + ":attempt:" + id) == if id in s.attempts then Some(CounterEntry(s.attempts[id])) else None
    ensures Lookup(ks, ns + ":job:" + id) == if id in s.payloads then Some(PayloadEntry(s.payloads[id])) else None
    ensures Lookup(ks, ns + ":state:" + id) == if id in s.states then Some(StateEntry(s.states[id])) else None
    ensures Lookup(ks, ns + ":result:" + id) == if id in s.results then Some(ResultEntry(s.results[id])) else None
  {
    KeyDeterminesSlot(ns, QueueSlot);
    KeyDeterminesSlot(ns, NotifySlot);
    KeyDeterminesSlot(ns, LeasesSlot);
    KeyDeterminesSlot(ns, AttemptSlot(id));
    KeyDeterminesSlot(ns, JobSlot(id));
    KeyDeterminesSlot(ns, StateSlot(id));
    KeyDeterminesSlot(ns, ResultSlot(id));
  }

  /** A keyspace stands for a store exactly when it has these under these keys, for every job. */
  lemma RepresentsExactly(ks: Keyspace, ns: string, s: Store)
    ensures Represents(ks, ns, s) <==> forall id :: StandsAt(ks, ns, s, id)
  {
    if Represents(ks, ns, s) {
      forall id ensures StandsAt(ks, ns, s, id) { RepresentedStands(ks, ns, s, id); }
    }
    if forall id :: StandsAt(ks, ns, s, id) {
      forall slot ensures Lookup(ks, KeyOf(ns, slot)) == Contents(s, slot) { SlotStands(ks, ns, s, slot); }
    }
  }

  lemma PutTracks(before: Keyspace, ks: Keyspace, ks': Keyspace, ns: string, s: Store, s': Store, slot: Slot)
    requires Tracks(before, ks, ns, s)
    requires forall t :: t != slot ==> Contents(s', t) == Contents(s, t)
    requires Lookup(ks', KeyOf(ns, slot)) == Contents(s', slot)
    requires forall key :: key != KeyOf(ns, slot) ==> Lookup(ks', key) == Lookup(ks, key)
    ensures Tracks(before, ks', ns, s')
  {
    forall t ensures Lookup(ks', KeyOf(ns, t)) == Contents(s', t) {
      KeyDeterminesSlot(ns, t);
      KeyDeterminesSlot(ns, slot);
    }
    forall key | !Owned(ns, key) ensures Lookup(ks', key) == Lookup(before, key) {
      assert key != KeyOf(ns, slot);
    }
  }

  lemma ListAtSlot(ks: Keyspace, ns: string, s: Store)
    requires Represents(ks, ns, s)
    ensures ListAt(ks, KeyOf(ns, QueueSlot)) == s.queue
    ensures ListAt(ks, KeyOf(ns, NotifySlot)) == s.notify
    ensures ScoresAt(ks, KeyOf(ns, LeasesSlot)) == s.leases
  {
    assert Lookup(ks, KeyOf(ns, QueueSlot)) == Contents(s, QueueSlot);
    assert Lookup(ks, KeyOf(ns, NotifySlot)) == Contents(s, NotifySlot);
    assert Lookup(ks, KeyOf(ns, LeasesSlot)) == Contents(s, LeasesSlot);
  }

  lemma ReadsAt(ks: Keyspace, ns: string, s: Store, id: string)
    requires Represents(ks, ns, s)
    ensures GetState(ks, KeyOf(ns, StateSlot(id))) == Lookup(s.states, id)
    ensures GetPayload(ks, KeyOf(ns, JobSlot(id))) == Lookup(s.payloads, id)
    ensures CountAt(ks, KeyOf(ns, AttemptSlot(id))) == Counter(s, id)
  {
    assert Lookup(ks, KeyOf(ns, StateSlot(id))) == Contents(s, StateSlot(id));
    assert Lookup(ks, KeyOf(ns, JobSlot(id))) == Contents(s, JobSlot(id));
    assert Lookup(ks, KeyOf(ns, AttemptSlot(id))) == Contents(s, AttemptSlot(id));
  }

  lemma LPopTracks(before: Keyspace, ks: Keyspace, ns: string, s: Store)
    requires Tracks(before, ks, ns, s)
    ensures var (ks', head) := LPop(ks, KeyOf(ns, QueueSlot));
            if s.queue == [] then ks' == ks && head.None?
            else head == Some(s.queue[0]) && Tracks(before, ks', ns, s.(queue := s.queue[1..]))
  {
    ListAtSlot(ks, ns, s);
    if s.queue != [] {
      PutTracks(before, ks, LPop(ks, KeyOf(ns, QueueSlot)).0, ns, s, s.(queue := s.queue[1..]), QueueSlot);
    }
  }

  lemma RPushTracks(before: Keyspace, ks: Keyspace, ns: string, s: Store, id: string)
    requires Tracks(before, ks, ns, s)
    ensures Tracks(before, RPush(ks, KeyOf(ns, QueueSlot), id), ns, s.(queue := s.queue + [id]))
  {
    ListAtSlot(ks, ns, s);
    PutTracks(before, ks, RPush(ks, KeyOf(ns, QueueSlot), id), ns, s, s.(queue := s.queue + [id]), QueueSlot);
  }

  lemma LPushTracks(before: Keyspace, ks: Keyspace, ns: string, s: Store, id: string)
    requires Tracks(before, ks, ns, s)
    ensures Tracks(before, LPush(ks, KeyOf(ns, NotifySlot), id), ns, s.(notify := [id] + s.notify))
  {
    ListAtSlot(ks, ns, s);
    PutTracks(before, ks, LPush(ks, KeyOf(ns, NotifySlot), id), ns, s, s.(notify := [id] + s.notify), NotifySlot);
  }

  lemma ZAddTracks(before: Keyspace, ks: Keyspace, ns: string, s: Store, id: string, score: nat)
    requires Tracks(before, ks, ns, s)
    ensures Tracks(before, ZAdd(ks, KeyOf(ns, LeasesSlot), score, id), ns, s.(leases := s.leases[id := score]))
  {
    ListAtSlot(ks, ns, s);
    assert id in s.leases[id := score];
    PutTracks(before, ks, ZAdd(ks, KeyOf(ns, LeasesSlot), score, id), ns, s, s.(leases := s.leases[id := score]), LeasesSlot);
  }

  lemma ZRemTracks(before: Keyspace, ks: Keyspace, ns: string, s: Store, id: string)
    requires Tracks(before, ks, ns, s)
    ensures Tracks(before, ZRem(ks, KeyOf(ns, LeasesSlot), id), ns, s.(leases := s.leases - {id}))
  {
    ListAtSlot(ks, ns, s);
    PutTracks(before, ks, ZRem(ks, KeyOf(ns, LeasesSlot), id), ns, s, s.(leases := s.leases - {id}), LeasesSlot);
  }

  lemma SetStateTracks(before: Keyspace, ks: Keyspace, ns: string, s: Store, id: string, state: JobState)
    requires Tracks(before, ks, ns, s)
    ensures Tracks(before, Set(ks, KeyOf(ns, StateSlot(id)), StateEntry(state)), ns, s.(states := s.states[id := state]))
  {
    PutTracks(before, ks, Set(ks, KeyOf(ns, StateSlot(id)), StateEntry(state)), ns, s,
              s.(states := s.states[id := state]), StateSlot(id));
  }

  lemma SetPayloadTracks(before: Keyspace, ks: Keyspace, ns: string, s: Store, id: string, payload: Payload)
    requires Tracks(before, ks, ns, s)
    ensures Tracks(before, Set(ks, KeyOf(ns, JobSlot(id)), PayloadEntry(payload)), ns, s.(payloads := s.payloads[id := payload]))
  {
    PutTracks(before, ks, Set(ks, KeyOf(ns, JobSlot(id)), PayloadEntry(payload)), ns, s,
              s.(payloads := s.payloads[id := payload]), JobSlot(id));
  }

  lemma SetResultTracks(before: Keyspace, ks: Keyspace, ns: string, s: Store, id: string, result: ResultDoc)
    requires Tracks(before, ks, ns, s)
    ensures Tracks(before, Set(ks, KeyOf(ns, ResultSlot(id)), ResultEntry(result)), ns, s.(results := s.results[id := result]))
  {
    PutTracks(before, ks, Set(ks, KeyOf(ns, ResultSlot(id)), ResultEntry(result)), ns, s,
              s.(results := s.results[id := result]), ResultSlot(id));
  }

  lemma IncrTracks(before: Keyspace, ks: Keyspace, ns: string, s: Store, id: string)
    requires Tracks(before, ks, ns, s)
    ensures var (ks', attempt) := Incr(ks, KeyOf(ns, AttemptSlot(id)));
            attempt == Counter(s, id) + 1 && Tracks(before, ks', ns, s.(attempts := s.attempts[id := attempt]))
  {
    ReadsAt(ks, ns, s, id);
    var (ks', attempt) := Incr(ks, KeyOf(ns, AttemptSlot(id)));
    PutTracks(before, ks, ks', ns, s, s.(attempts := s.attempts[id := attempt]), AttemptSlot(id));
  }

  /** One turn of the CLAIM loop. */
  lemma ClaimUnfolds(s: Store, worker: string, lease: string, expires: nat)
    ensures s.queue == [] ==> LeaseQueue.Claim(s, worker, lease, expires) == (s, None)
    ensures s.queue != [] ==>
              var (id, popped) := (s.queue[0], s.(queue := s.queue[1..]));
              if id in s.payloads && Lookup(s.states, id) == Some(Queued) then
                var attempt := Counter(s, id) + 1;
                LeaseQueue.Claim(s, worker, lease, expires) ==
                  (popped.(attempts := popped.attempts[id := attempt],
                           states := popped.states[id := Claimed(worker, lease, expires, attempt)],
                           leases := popped.leases[id := expires]),
                   Some(ClaimReply(id, s.payloads[id], attempt)))
              else LeaseQueue.Claim(s, worker, lease, expires) == LeaseQueue.Claim(popped, worker, lease, expires)
  {
  }

  /** One more entry without an error. */
  lemma SweepGoesOn(s: Store, ids: seq<string>, i: nat, maxAttempts: nat, now: nat)
    requires i < |ids| && !LeaseQueue.Sweep(s, ids[..i], maxAttempts, now).raised
    requires !LeaseQueue.Resolve(LeaseQueue.Sweep(s, ids[..i], maxAttempts, now).store, ids[i], maxAttempts, now).raised
    ensures var before := LeaseQueue.Sweep(s, ids[..i], maxAttempts, now);
            var r := LeaseQueue.Resolve(before.store, ids[i], maxAttempts, now);
            LeaseQueue.Sweep(s, ids[..i + 1], maxAttempts, now)
              == Swept(r.store.(leases := r.store.leases - {ids[i]}), before.requeued + r.requeued, before.failed + r.failed, false)
  {
    assert ids[..i + 1][..i] == ids[..i];
  }

  /** An error at entry `i` is where the sweep ends. */
  lemma {:induction false} SweepRaisesAt(s: Store, ids: seq<string>, i: nat, maxAttempts: nat, now: nat)
    requires i < |ids| && !LeaseQueue.Sweep(s, ids[..i], maxAttempts, now).raised
    requires LeaseQueue.Resolve(LeaseQueue.Sweep(s, ids[..i], maxAttempts, now).store, ids[i], maxAttempts, now).raised
    ensures var r := LeaseQueue.Sweep(s, ids, maxAttempts, now);
            r.raised && r.store == LeaseQueue.Resolve(LeaseQueue.Sweep(s, ids[..i], maxAttempts, now).store, ids[i], maxAttempts, now).store
    decreases |ids|
  {
    var init := ids[..|ids| - 1];
    if i < |init| {
      assert init[..i] == ids[..i];
      SweepRaisesAt(s, init, i, maxAttempts, now);
    } else {
      assert ids[..i] == init;
    }
  }

  // ---------------------------------------------------------------- the server

  class Redis {
    var keyspace: Keyspace
    var nowUs: nat

    constructor ()
      ensures keyspace == map[] && nowUs == 0
    {
      keyspace, nowUs := map[], 0;
    }

    // redis.call(...), each with the structured store it moves to

    method SetState(keys: Keys, id: string, state: JobState, ghost before: Keyspace, ghost s: Store)
      returns (ghost t: Store)
      requires keys == KeysIn(keys.namespace) && Tracks(before, keyspace, keys.namespace, s)
      modifies this`keyspace
      ensures Tracks(before, keyspace, keys.namespace, t) && t == s.(states := s.states[id := state])
    {
      SetStateTracks(before, keyspace, keys.namespace, s, id, state);
      keyspace := Set(keyspace, keys.State(id), StateEntry(state));
      t := s.(states := s.states[id := state]);
    }

    method SetResult(keys: Keys, id: string, result: ResultDoc, ghost before: Keyspace, ghost s: Store)
      returns (ghost t: Store)
      requires keys == KeysIn(keys.namespace) && Tracks(before, keyspace, keys.namespace, s)
      modifies this`keyspace
      ensures Tracks(before, keyspace, keys.namespace, t) && t == s.(results := s.results[id := result])
    {
      SetResultTracks(before, keyspace, keys.namespace, s, id, result);
      keyspace := Set(keyspace, keys.Result(id), ResultEntry(result));
      t := s.(results := s.results[id := result]);
    }

    method IncrAttempt(keys: Keys, id: string, ghost before: Keyspace, ghost s: Store)
      returns (attempt: nat, ghost t: Store)
      requires keys == KeysIn(keys.namespace) && Tracks(before, keyspace, keys.namespace, s)
      modifies this`keyspace
      ensures Tracks(before, keyspace, keys.namespace, t)
      ensures attempt == Counter(s, id) + 1 && t == s.(attempts := s.attempts[id := attempt])
    {
      IncrTracks(before, keyspace, keys.namespace, s, id);
      var (counted, n) := Incr(keyspace, keys.Attempt(id));
      keyspace, attempt := counted, n;
      t := s.(attempts := s.attempts[id := attempt]);
    }

    method PopQueue(keys: Keys, ghost before: Keyspace, ghost s: Store) returns (head: Option<string>, ghost t: Store)
      requires keys == KeysIn(keys.namespace) && Tracks(before, keyspace, keys.namespace, s)
      modifies this`keyspace
      ensures Tracks(before, keyspace, keys.namespace, t)
      ensures if s.queue == [] then head.None? && t == s
              else head == Some(s.queue[0]) && t == s.(queue := s.queue[1..])
    {
      LPopTracks(before, keyspace, keys.namespace, s);
      var (popped, h) := LPop(keyspace, keys.queue);
      keyspace, head := popped, h;
      t := if s.queue == [] then s else s.(queue := s.queue[1..]);
    }

    method Enqueue(keys: Keys, id: string, ghost before: Keyspace, ghost s: Store) returns (ghost t: Store)
      requires keys == KeysIn(keys.namespace) && Tracks(before, keyspace, keys.namespace, s)
      modifies this`keyspace
      ensures Tracks(before, keyspace, keys.namespace, t) && t == s.(queue := s.queue + [id])
    {
      RPushTracks(before, keyspace, keys.namespace, s, id);
      keyspace := RPush(keyspace, keys.queue, id);
      t := s.(queue := s.queue + [id]);
    }

    method Notify(keys: Keys, id: string, ghost before: Keyspace, ghost s: Store) returns (ghost t: Store)
      requires keys == KeysIn(keys.namespace) && Tracks(before, keyspace, keys.namespace, s)
      modifies this`keyspace
      ensures Tracks(before, keyspace, keys.namespace, t) && t == s.(notify := [id] + s.notify)
    {
      LPushTracks(before, keyspace, keys.namespace, s, id);
      keyspace := LPush(keyspace, keys.notify, id);
      t := s.(notify := [id] + s.notify);
    }

    method AddLease(keys: Keys, id: string, expires: nat, ghost before: Keyspace, ghost s: Store)
      returns (ghost t: Store)
      requires keys == KeysIn(keys.namespace) && Tracks(before, keyspace, keys.namespace, s)
      modifies this`keyspace
      ensures Tracks(before, keyspace, keys.namespace, t) && t == s.(leases := s.leases[id := expires])
    {
      ZAddTracks(before, keyspace, keys.namespace, s, id, expires);
      keyspace := ZAdd(keyspace, keys.leases, expires, id);
      t := s.(leases := s.leases[id := expires]);
    }

    method RemoveLease(keys: Keys, id: string, ghost before: Keyspace, ghost s: Store) returns (ghost t: Store)
      requires keys == KeysIn(keys.namespace) && Tracks(before, keyspace, keys.namespace, s)
      modifies this`keyspace
      ensures Tracks(before, keyspace, keys.namespace, t) && t == s.(leases := s.leases - {id})
    {
      ZRemTracks(before, keyspace, keys.namespace, s, id);
      keyspace := ZRem(keyspace, keys.leases, id);
      t := s.(leases := s.leases - {id});
    }

    method ReadJob(keys: Keys, id: string, ghost s: Store)
      returns (payload: Option<Payload>, state: Option<JobState>, count: nat)
      requires keys == KeysIn(keys.namespace) && Represents(keyspace, keys.namespace, s)
      ensures payload == Lookup(s.payloads, id) && state == Lookup(s.states, id) && count == Counter(s, id)
    {
      ReadsAt(keyspace, keys.namespace, s, id);
      payload := GetPayload(keyspace, keys.Job(id));
      state := GetState(keyspace, keys.State(id));
      count := CountAt(keyspace, keys.Attempt(id));
    }

    // ---------------------------------------------------------------- the scripts

    /** The check that opens four of the scripts. */
    method Guard(keys: Keys, id: string, worker: string, lease: string, ghost s: Store) returns (ok: bool, state: JobState)
      requires keys == KeysIn(keys.namespace) && Represents(keyspace, keys.namespace, s)
      ensures ok == LeaseQueue.Holds(s, id, worker, lease, NowMs(nowUs))
      ensures ok ==> state == s.states[id]
    {
      var now := NowMs(nowUs);
      var _, stored, _ := ReadJob(keys, id, s);
      if stored.None? { return false, Unreadable; }
      state := stored.value;
      ok := !(!state.MatchesLease(worker, lease) || state.leaseExpiresMs <= now);
    }

    /** What CLAIM does to the queued job it has found. */
    method Take(keys: Keys, id: string, worker: string, lease: string, expires: nat, ghost before: Keyspace, ghost s: Store)
      returns (attempt: nat, ghost t: Store)
      requires keys == KeysIn(keys.namespace) && Tracks(before, keyspace, keys.namespace, s)
      modifies this`keyspace
      ensures Tracks(before, keyspace, keys.namespace, t)
      ensures attempt == Counter(s, id) + 1
      ensures t == s.(attempts := s.attempts[id := attempt],
                      states := s.states[id := Claimed(worker, lease, expires, attempt)],
                      leases := s.leases[id := expires])
    {
      attempt, t := IncrAttempt(keys, id, before, s);
      var claimed := Claimed(worker, lease, expires, attempt);
      t := SetState(keys, id, claimed, before, t);
      t := AddLease(keys, id, expires, before, t);
    }

    method Claim(keys: Keys, worker: string, lease: string, leaseMs: nat, ghost s: Store)
      returns (reply: Option<ClaimReply>)
      requires keys == KeysIn(keys.namespace) && Represents(keyspace, keys.namespace, s)
      modifies this`keyspace
      ensures Tracks(old(keyspace), keyspace, keys.namespace,
                     LeaseQueue.Claim(s, worker, lease, NowMs(nowUs) + leaseMs).0)
      ensures reply == LeaseQueue.Claim(s, worker, lease, NowMs(nowUs) + leaseMs).1
    {
      TracksItself(keyspace, keys.namespace, s);
      ghost var before, t := keyspace, s;
      var expires := NowMs(nowUs) + leaseMs;
      ghost var goal := LeaseQueue.Claim(s, worker, lease, expires);
      while true
        invariant Tracks(before, keyspace, keys.namespace, t)
        invariant LeaseQueue.Claim(t, worker, lease, expires) == goal
        decreases |t.queue|
      {
        var head;
        ClaimUnfolds(t, worker, lease, expires);
        head, t := PopQueue(keys, before, t);
        if head.None? { return None; }
        var id := head.value;
        var payload, state, _ := ReadJob(keys, id, t);
        if payload.Some? && state.Some? && state.value.Queued? {
          var attempt;
          attempt, t := Take(keys, id, worker, lease, expires, before, t);
          assert goal == (t, Some(ClaimReply(id, payload.value, attempt)));
          return Some(ClaimReply(id, payload.value, attempt));
        }
      }
    }

    method Heartbeat(keys: Keys, id: string, worker: string, lease: string, leaseMs: nat, ghost s: Store)
      returns (reply: nat)
      requires keys == KeysIn(keys.namespace) && Represents(keyspace, keys.namespace, s)
      modifies this`keyspace
      ensures Tracks(old(keyspace), keyspace, keys.namespace,
                     LeaseQueue.Heartbeat(s, id, worker, lease, leaseMs, NowMs(nowUs)).0)
      ensures reply == LeaseQueue.Heartbeat(s, id, worker, lease, leaseMs, NowMs(nowUs)).1
    {
      TracksItself(keyspace, keys.namespace, s);
      ghost var before, t := keyspace, s;
      ghost var goal := LeaseQueue.Heartbeat(s, id, worker, lease, leaseMs, NowMs(nowUs));
      var ok, state := Guard(keys, id, worker, lease, s);
      if !ok { return 0; }
      var expires := NowMs(nowUs) + leaseMs;
      var renewed := state.(leaseExpiresMs := expires);
      t := SetState(keys, id, renewed, before, t);
      t := AddLease(keys, id, expires, before, t);
      assert goal == (t, 1);
      return 1;
    }

    method Complete(keys: Keys, id: string, worker: string, lease: string, result: ResultDoc, ghost s: Store)
      returns (reply: nat)
      requires keys == KeysIn(keys.namespace) && Represents(keyspace, keys.namespace, s)
      modifies this`keyspace
      ensures Tracks(old(keyspace), keyspace, keys.namespace,
                     LeaseQueue.Complete(s, id, worker, lease, result, NowMs(nowUs)).0)
      ensures reply == LeaseQueue.Complete(s, id, worker, lease, result, NowMs(nowUs)).1
    {
      TracksItself(keyspace, keys.namespace, s);
      ghost var before, t := keyspace, s;
      var ok, state := Guard(keys, id, worker, lease, s);
      if !ok { return 0; }
      t := SetResult(keys, id, result, before, t);
      var completed := Completed(NowMs(nowUs), state.attempt);
      t := SetState(keys, id, completed, before, t);
      t := RemoveLease(keys, id, before, t);
      t := Notify(keys, id, before, t);
      return 1;
    }

    method FinishError(keys: Keys, id: string, worker: string, lease: string, retryable: bool, maxAttempts: nat,
                       result: ResultDoc, error: string, ghost s: Store) returns (reply: nat)
      requires keys == KeysIn(keys.namespace) && Represents(keyspace, keys.namespace, s)
      modifies this`keyspace
      ensures Tracks(old(keyspace), keyspace, keys.namespace,
                     LeaseQueue.FinishError(s, id, worker, lease, retryable, maxAttempts, result, error, NowMs(nowUs)).0)
      ensures reply == LeaseQueue.FinishError(s, id, worker, lease, retryable, maxAttempts, result, error, NowMs(nowUs)).1
    {
      TracksItself(keyspace, keys.namespace, s);
      ghost var before, t := keyspace, s;
      var ok, state := Guard(keys, id, worker, lease, s);
      if !ok { return 0; }
      t := RemoveLease(keys, id, before, t);
      if retryable && state.attempt < maxAttempts {
        t := SetState(keys, id, Queued, before, t);
        t := Enqueue(keys, id, before, t);
        return 2;
      }
      t := SetResult(keys, id, result, before, t);
      var failed := Failed(NowMs(nowUs), state.attempt, error);
      t := SetState(keys, id, failed, before, t);
      t := Notify(keys, id, before, t);
      return 1;
    }

    method FailInvalid(keys: Keys, id: string, worker: string, lease: string, error: string, ghost s: Store)
      returns (reply: nat)
      requires keys == KeysIn(keys.namespace) && Represents(keyspace, keys.namespace, s)
      modifies this`keyspace
      ensures Tracks(old(keyspace), keyspace, keys.namespace,
                     LeaseQueue.FailInvalid(s, id, worker, lease, error, NowMs(nowUs)).0)
      ensures reply == LeaseQueue.FailInvalid(s, id, worker, lease, error, NowMs(nowUs)).1
    {
      TracksItself(keyspace, keys.namespace, s);
      ghost var before, t := keyspace, s;
      var ok, state := Guard(keys, id, worker, lease, s);
      if !ok { return 0; }
      var failed := Failed(NowMs(nowUs), state.attempt, error);
      t := SetState(keys, id, failed, before, t);
      t := RemoveLease(keys, id, before, t);
      t := Notify(keys, id, before, t);
      return 1;
    }

    /** The body of the sweep loop up to its ZREM, or up to the error it raises. */
    method Resolve(keys: Keys, id: string, maxAttempts: nat, now: nat, ghost before: Keyspace, ghost s: Store)
      returns (requeued: nat, failed: nat, raised: bool)
      requires keys == KeysIn(keys.namespace) && Tracks(before, keyspace, keys.namespace, s)
      modifies this`keyspace
      ensures var r := LeaseQueue.Resolve(s, id, maxAttempts, now);
              Tracks(before, keyspace, keys.namespace, r.store) && r == Swept(r.store, requeued, failed, raised)
    {
      ghost var t := s;
      var payload, stored, count := ReadJob(keys, id, s);
      requeued, failed, raised := 0, 0, false;
      if stored.Some? && stored.value.Claimed? && stored.value.leaseExpiresMs <= now {
        var attempt := Max(count, stored.value.attempt);
        if attempt >= maxAttempts {
          var decoded := if payload.Some? then LuaDecode(payload.value) else Undecodable;
          if !decoded.Undecodable? {
            if decoded.Unindexable? { return 0, 0, true; }
            var result := ResultDoc(decoded.identity, Errored(LEASE_EXPIRED_MAX_ATTEMPTS_ERROR));
            t := SetResult(keys, id, result, before, t);
            var state := Failed(now, attempt, LEASE_EXPIRED_MAX_ATTEMPTS_ERROR);
            t := SetState(keys, id, state, before, t);
            t := Notify(keys, id, before, t);
            failed := 1;
          }
        } else {
          t := SetState(keys, id, Queued, before, t);
          t := Enqueue(keys, id, before, t);
          requeued := 1;
        }
      }
    }

    /** REQUEUE_EXPIRED. The reply is the two counts, or None for an error. */
    method RequeueExpired(keys: Keys, batch: nat, maxAttempts: nat, ghost s: Store)
      returns (reply: Option<(nat, nat)>, expired: seq<string>)
      requires keys == KeysIn(keys.namespace) && Represents(keyspace, keys.namespace, s)
      modifies this`keyspace
      ensures IsBatch(s.leases, NowMs(nowUs), batch, expired)
      ensures var r := LeaseQueue.Sweep(s, expired, maxAttempts, NowMs(nowUs));
              && Tracks(old(keyspace), keyspace, keys.namespace, r.store)
              && reply == if r.raised then None else Some((r.requeued, r.failed))
    {
      TracksItself(keyspace, keys.namespace, s);
      ghost var before, t := keyspace, s;
      var now := NowMs(nowUs);
      ListAtSlot(keyspace, keys.namespace, s);
      expired := ExpirySweep.RangeByScore(ScoresAt(keyspace, keys.leases), now, batch);
      var requeued, failed := 0, 0;
      var i := 0;
      while i < |expired|
        invariant i <= |expired|
        invariant LeaseQueue.Sweep(s, expired[..i], maxAttempts, now) == Swept(t, requeued, failed, false)
        invariant Tracks(before, keyspace, keys.namespace, t)
      {
        var id := expired[i];
        var r, f, raised := Resolve(keys, id, maxAttempts, now, before, t);
        if raised {
          SweepRaisesAt(s, expired, i, maxAttempts, now);
          return None, expired;
        }
        SweepGoesOn(s, expired, i, maxAttempts, now);
        requeued, failed := requeued + r, failed + f;
        t := RemoveLease(keys, id, before, LeaseQueue.Resolve(t, id, maxAttempts, now).store);
        i := i + 1;
      }
      assert expired[..i] == expired;
      return Some((requeued, failed)), expired;
    }

    /** A producer's submission: SET payload, SET Queued, RPUSH. */
    method Submit(keys: Keys, id: string, payload: Payload, ghost s: Store)
      requires keys == KeysIn(keys.namespace) && Represents(keyspace, keys.namespace, s)
      modifies this`keyspace
      ensures Tracks(old(keyspace), keyspace, keys.namespace, SubmitTo(s, id, payload))
    {
      TracksItself(keyspace, keys.namespace, s);
      ghost var before, t := keyspace, s;
      SetPayloadTracks(before, keyspace, keys.namespace, s, id, payload);
      keyspace := Set(keyspace, keys.Job(id), PayloadEntry(payload));
      t := s.(payloads := s.payloads[id := payload]);
      t := SetState(keys, id, Queued, before, t);
      t := Enqueue(keys, id, before, t);
    }

    method ServeSweep(keys: Keys, batch: nat, maxAttempts: nat, ghost w: World) returns (done: Event)
      requires keys == KeysIn(keys.namespace) && Represents(keyspace, keys.namespace, w.store) && w.nowUs == nowUs
      modifies this`keyspace
      ensures done.DoSweep? && done.batch == batch && done.maxAttempts == maxAttempts
      ensures IsBatch(w.store.leases, w.Now(), batch, done.ids)
      ensures Tracks(old(keyspace), keyspace, keys.namespace, Apply(w, done).store)
    {
      var _, ids := RequeueExpired(keys, batch, maxAttempts, w.store);
      done := DoSweep(ids, batch, maxAttempts);
    }

    /** Any step of a run, on the flat keyspace. A sweep gets its batch from the store. */
    method Serve(keys: Keys, e: Event, ghost w: World) returns (done: Event)
      requires keys == KeysIn(keys.namespace) && Represents(keyspace, keys.namespace, w.store) && w.nowUs == nowUs
      modifies this
      ensures if e.DoSweep? then done.DoSweep? && done == e.(ids := done.ids) && IsBatch(w.store.leases, w.Now(), e.batch, done.ids)
              else done == e
      ensures Tracks(old(keyspace), keyspace, keys.namespace, Apply(w, done).store)
      ensures nowUs == Apply(w, done).nowUs && (e.Tick? ==> keyspace == old(keyspace))
    {
      done := e;
      match e {
        case Tick(us) =>
          TracksItself(keyspace, keys.namespace, w.store);
          nowUs := nowUs + us;
        case Submit(id, payload) => Submit(keys, id, payload, w.store);
        case DoClaim(worker, lease, leaseMs) => var _ := Claim(keys, worker, lease, leaseMs, w.store);
        case DoHeartbeat(id, worker, lease, leaseMs) => var _ := Heartbeat(keys, id, worker, lease, leaseMs, w.store);
        case DoComplete(id, worker, lease, result) => var _ := Complete(keys, id, worker, lease, result, w.store);
        case DoFinishError(id, worker, lease, retryable, maxAttempts, result, error) =>
          var _ := FinishError(keys, id, worker, lease, retryable, maxAttempts, result, error, w.store);
        case DoFailInvalid(id, worker, lease, error) => var _ := FailInvalid(keys, id, worker, lease, error, w.store);
        case DoSweep(_, batch, maxAttempts) =>
          done := ServeSweep(keys, batch, maxAttempts, w);
      }
    }

    /** One more call, of one of several queues. */
    method ServeNext(ns: string, e: Event, ghost queues: map<string, World>, ghost before: Keyspace, ghost deeds: seq<Deed>)
      returns (d: Deed)
      requires Apart(queues) && ns in queues && Driven(before, keyspace, nowUs, queues, deeds)
      modifies this
      ensures Answers(d, ns, e) && Driven(before, keyspace, nowUs, queues, deeds + [d])
    {
      ghost var ks, w := keyspace, After(queues, deeds)[ns];
      var done := Serve(KeysIn(ns), e, w);
      d := Deed(ns, done, keyspace);
      DeedKeepsAll(queues, before, deeds, d, ks, nowUs);
    }

    /** Serves the calls of any number of queues with no key in common, in the order they come. Each queue is
        left where a run of its own calls and of time leaves it. */
    method Drive(calls: seq<(string, Event)>, ghost queues: map<string, World>) returns (deeds: seq<Deed>)
      requires Apart(queues) && AllTracked(keyspace, queues, nowUs)
      requires forall i :: 0 <= i < |calls| ==> calls[i].0 in queues
      modifies this
      ensures AnswersAll(deeds, calls)
      ensures Driven(old(keyspace), keyspace, nowUs, queues, deeds)
    {
      ghost var before := keyspace;
      deeds := [];
      DrivenNowhere(queues, keyspace, nowUs);
      for i := 0 to |calls|
        invariant AnswersAll(deeds, calls[..i])
        invariant Driven(before, keyspace, nowUs, queues, deeds)
      {
        var d := ServeNext(calls[i].0, calls[i].1, queues, before, deeds);
        AnswersOneMore(deeds, calls, i, d);
        deeds := deeds + [d];
      }
      assert calls[..|calls|] == calls;
    }
  }

  // ---------------------------------------------------------------- several queues on one server

  /** One step on the server: whose it was, what it did there, and the keyspace it left. */
  datatype Deed = Deed(ns: string, e: Event, after: Keyspace)

  /** The clock is shared; a step of `ns` does what `Serve` does; a step of another namespace has no key
      in common with `ns` and touches only its own keys, whatever else it does. */
  ghost predicate Shares(ns: string, w: World, ks: Keyspace, deeds: seq<Deed>)
    decreases |deeds|
  {
    deeds == [] ||
    var d := deeds[0];
    if d.e.Tick? then d.after == ks && Shares(ns, Apply(w, d.e), ks, deeds[1..])
    else if d.ns == ns then
      Tracks(ks, d.after, ns, Apply(w, d.e).store) && Shares(ns, Apply(w, d.e), d.after, deeds[1..])
    else
      && !Extends(ns, d.ns) && !Extends(d.ns, ns) && OthersKept(ks, d.after, d.ns)
      && Shares(ns, w, d.after, deeds[1..])
  }

  /** The steps that concern `ns`: its own, and time. */
  function Own(ns: string, deeds: seq<Deed>): seq<Event> {
    if deeds == [] then []
    else (if deeds[0].e.Tick? || deeds[0].ns == ns then [deeds[0].e] else []) + Own(ns, deeds[1..])
  }

  function Last(ks: Keyspace, deeds: seq<Deed>): Keyspace {
    if deeds == [] then ks else deeds[|deeds| - 1].after
  }

  /** No two queues have a key in common. */
  ghost predicate Apart(queues: map<string, World>) {
    forall a, b :: a in queues && b in queues && a != b ==> !Extends(a, b) && !Extends(b, a)
  }

  /** The keyspace stands for every one of them, at this time. */
  ghost predicate AllTracked(ks: Keyspace, queues: map<string, World>, nowUs: nat) {
    forall ns :: ns in queues ==> Represents(ks, ns, queues[ns].store) && queues[ns].nowUs == nowUs
  }

  /** The deed is the call; a sweep has got its batch. */
  predicate Answers(d: Deed, ns: string, e: Event) {
    d.ns == ns && if e.DoSweep? then d.e.DoSweep? && d.e == e.(ids := d.e.ids) else d.e == e
  }

  /** Where the steps that concern them leave the queues. */
  function After(queues: map<string, World>, deeds: seq<Deed>): map<string, World> {
    map ns | ns in queues :: Run(queues[ns], Own(ns, deeds))
  }

  /** The server has come from `before` to `ks` by these deeds, which every queue shares it for, and stands
      where their runs do. */
  ghost predicate Driven(before: Keyspace, ks: Keyspace, nowUs: nat, queues: map<string, World>, deeds: seq<Deed>) {
    && (forall ns :: ns in queues ==> Shares(ns, queues[ns], before, deeds))
    && Last(before, deeds) == ks
    && AllTracked(ks, After(queues, deeds), nowUs)
  }

  lemma DrivenNowhere(queues: map<string, World>, ks: Keyspace, nowUs: nat)
    requires AllTracked(ks, queues, nowUs)
    ensures Driven(ks, ks, nowUs, queues, [])
  {
    assert After(queues, []) == queues;
  }

  /** The deeds are the calls so far, in order. */
  predicate AnswersAll(deeds: seq<Deed>, calls: seq<(string, Event)>) {
    |deeds| == |calls| && forall i :: 0 <= i < |calls| ==> Answers(deeds[i], calls[i].0, calls[i].1)
  }

  lemma AnswersOneMore(deeds: seq<Deed>, calls: seq<(string, Event)>, i: nat, d: Deed)
    requires i < |calls| && AnswersAll(deeds, calls[..i]) && Answers(d, calls[i].0, calls[i].1)
    ensures AnswersAll(deeds + [d], calls[..i + 1])
  {
    forall j | 0 <= j <= i ensures Answers((deeds + [d])[j], calls[..i + 1][j].0, calls[..i + 1][j].1) {
      if j < i { assert calls[..i][j] == calls[j]; }
    }
  }

  /** One more step that `ns` shares the server with. */
  ghost predicate SharesStep(ns: string, w: World, ks: Keyspace, d: Deed) {
    if d.e.Tick? then d.after == ks
    else if d.ns == ns then Tracks(ks, d.after, ns, Apply(w, d.e).store)
    else !Extends(ns, d.ns) && !Extends(d.ns, ns) && OthersKept(ks, d.after, d.ns)
  }

  lemma {:induction false} SharesOn(ns: string, w: World, ks: Keyspace, deeds: seq<Deed>, d: Deed)
    requires Shares(ns, w, ks, deeds) && SharesStep(ns, Run(w, Own(ns, deeds)), Last(ks, deeds), d)
    ensures Shares(ns, w, ks, deeds + [d])
    ensures Run(w, Own(ns, deeds + [d]))
         == if d.e.Tick? || d.ns == ns then Apply(Run(w, Own(ns, deeds)), d.e) else Run(w, Own(ns, deeds))
    decreases |deeds|
  {
    if deeds == [] {
      assert ([] + [d])[1..] == [];
      assert Own(ns, [d]) == if d.e.Tick? || d.ns == ns then [d.e] else [];
      assert [d.e][1..] == [];
    } else {
      var first, rest := deeds[0], deeds[1..];
      assert (deeds + [d])[1..] == rest + [d] && (deeds + [d])[0] == first;
      assert Last(ks, deeds) == Last(first.after, rest);
      var own := first.e.Tick? || first.ns == ns;
      if own {
        assert Own(ns, deeds)[1..] == Own(ns, rest) && Own(ns, deeds + [d])[1..] == Own(ns, rest + [d]);
        SharesOn(ns, Apply(w, first.e), first.after, rest, d);
      } else {
        assert Own(ns, deeds) == Own(ns, rest) && Own(ns, deeds + [d]) == Own(ns, rest + [d]);
        SharesOn(ns, w, first.after, rest, d);
      }
    }
  }

  /** A step that `Serve` has performed is shared by every queue. */
  lemma DeedKeepsAll(queues: map<string, World>, before: Keyspace, deeds: seq<Deed>, d: Deed, ks: Keyspace, nowUs: nat)
    requires Apart(queues) && d.ns in queues && d.ns in After(queues, deeds)
    requires Driven(before, ks, After(queues, deeds)[d.ns].nowUs, queues, deeds)
    requires Tracks(ks, d.after, d.ns, Apply(After(queues, deeds)[d.ns], d.e).store)
    requires nowUs == Apply(After(queues, deeds)[d.ns], d.e).nowUs && (d.e.Tick? ==> d.after == ks)
    ensures Driven(before, d.after, nowUs, queues, deeds + [d])
  {
    forall ns | ns in queues
      ensures Shares(ns, queues[ns], before, deeds + [d])
      ensures Represents(d.after, ns, After(queues, deeds + [d])[ns].store) && After(queues, deeds + [d])[ns].nowUs == nowUs
    {
      var w := After(queues, deeds)[ns];
      SharesOn(ns, queues[ns], before, deeds, d);
      if !d.e.Tick? && d.ns != ns {
        OtherNamespaceUnaffected(ks, d.after, d.ns, ns, w.store);
        OnlyTicksTell(After(queues, deeds)[d.ns], d.e);
      }
    }
  }

  lemma OnlyTicksTell(w: World, e: Event)
    requires !e.Tick?
    ensures Apply(w, e).nowUs == w.nowUs
  {
  }

  /** However the steps of any number of queues interleave on one server, each namespace is left as a run
      of its own steps alone would leave it. */
  lemma {:induction false} EachQueueRunsAlone(ns: string, w: World, ks: Keyspace, deeds: seq<Deed>)
    requires Represents(ks, ns, w.store) && Shares(ns, w, ks, deeds)
    ensures Represents(Last(ks, deeds), ns, Run(w, Own(ns, deeds)).store)
    decreases |deeds|
  {
    if deeds != [] {
      var d, rest := deeds[0], deeds[1..];
      assert Last(ks, deeds) == Last(d.after, rest);
      if d.e.Tick? || d.ns == ns {
        assert Own(ns, deeds)[1..] == Own(ns, rest);
        EachQueueRunsAlone(ns, Apply(w, d.e), d.after, rest);
      } else {
        OtherNamespaceUnaffected(ks, d.after, d.ns, ns, w.store);
        assert Own(ns, deeds) == Own(ns, rest);
        EachQueueRunsAlone(ns, w, d.after, rest);
      }
    }
  }
}
