/** The global invariant of the proof queue, what every step keeps of the past, and the proof that
    each script preserves both. */
module LeaseQueueInvariant {
  import opened Wrappers
  import opened ProofProtocol
  import opened LeaseQueue

  /** How often `id` is in the queue, and on the notify list. */
  function InQueue(s: Store, id: string): nat { multiset(s.queue)[id] }

  function InNotify(s: Store, id: string): nat { multiset(s.notify)[id] }

  /** The list, the lease ZSET, the state document, the counter and the result of one job agree. */
  ghost predicate JobConsistent(limit: nat, w: World, id: string) {
    var s := w.store;
    && InQueue(s, id) == (if id in s.states && s.states[id].Queued? then 1 else 0)
    && InNotify(s, id) == (if id in s.states && s.states[id].Terminal() then 1 else 0)
    && (id in s.states <==> id in s.payloads)
    && Counter(s, id) <= limit
    && (if id !in s.states then id !in s.leases && id !in s.attempts && id !in s.results
        else match s.states[id]
          case Unreadable => false
          case Queued => id !in s.leases && id !in s.results && Counter(s, id) < limit
          case Claimed(_, lease, expires, attempt) =>
            && lease in w.issued && id !in s.results && 1 <= attempt == Counter(s, id)
            && (if id in s.leases then s.leases[id] == expires
                else s.payloads[id].NotJson? && expires <= w.Now())
          case Completed(_, attempt) => id !in s.leases && id in s.results && attempt == Counter(s, id)
          case Failed(_, attempt, _) => id !in s.leases && attempt == Counter(s, id))
  }

  /** No two jobs are claimed under one lease. */
  ghost predicate LeasesPrivate(s: Store) {
    forall i, j ::
      (i in s.states && j in s.states && s.states[i].Claimed? && s.states[j].Claimed?
       && s.states[i].leaseId == s.states[j].leaseId) ==> i == j
  }

  ghost predicate Consistent(limit: nat, w: World) {
    && (forall id :: JobConsistent(limit, w, id))
    && LeasesPrivate(w.store)
  }

  // ---------------------------------------------------------------- what a step keeps of the past

  /** A lease the guard refuses although a CLAIM has used it. */
  predicate Fenced(w: World, id: string, worker: string, lease: string) {
    lease in w.issued && !Holds(w.store, id, worker, lease, w.Now())
  }

  /** A used lease under which no job is claimed any more, expired or not. */
  ghost predicate Spent(w: World, lease: string) {
    lease in w.issued
    && forall id :: id in w.store.states && w.store.states[id].Claimed? ==> w.store.states[id].leaseId != lease
  }

  /** Claimed, but with no entry in the lease ZSET, so that no sweep will find it. */
  predicate Stranded(s: Store, id: string) {
    id in s.states && s.states[id].Claimed? && id !in s.leases
  }

  ghost predicate JobEvolves(w: World, w': World, id: string) {
    var s, s' := w.store, w'.store;
    && (id in s.payloads ==> Lookup(s'.payloads, id) == Lookup(s.payloads, id))
    && (id in s.results ==> Lookup(s'.results, id) == Lookup(s.results, id))
    && (id in s.states ==> id in s'.states)
    && (id in s.states && s.states[id].Terminal() ==>
          s'.states[id] == s.states[id] && Lookup(s'.results, id) == Lookup(s.results, id))
    && (Stranded(s, id) ==> Stranded(s', id) && s'.states[id] == s.states[id])
  }

  ghost predicate Evolves(w: World, w': World) {
    && w.nowUs <= w'.nowUs
    && w.issued <= w'.issued
    && (forall id :: JobEvolves(w, w', id))
    && (forall id, worker, lease :: Fenced(w, id, worker, lease) ==> Fenced(w', id, worker, lease))
    && (forall lease :: Spent(w, lease) ==> Spent(w', lease))
    && |w.store.notify| <= |w'.store.notify|
    && w'.store.notify[|w'.store.notify| - |w.store.notify|..] == w.store.notify
  }

  lemma EvolvesTransitive(a: World, b: World, c: World)
    requires Evolves(a, b) && Evolves(b, c)
    ensures Evolves(a, c)
  {
    forall id ensures JobEvolves(a, c, id) {
      assert JobEvolves(a, b, id) && JobEvolves(b, c, id);
    }
    var n := a.store.notify;
    assert c.store.notify[|c.store.notify| - |n|..]
        == c.store.notify[|c.store.notify| - |b.store.notify|..][|b.store.notify| - |n|..];
  }

  lemma NowMonotone(a: nat, b: nat)
    requires a <= b
    ensures NowMs(a) <= NowMs(b)
  {
  }

  // ---------------------------------------------------------------- one step

  /** `s'` differs from `s` at most in what belongs to `id`. */
  ghost predicate OnlyAt(s: Store, s': Store, id: string) {
    forall j :: j != id ==>
      && InQueue(s', j) == InQueue(s, j)
      && InNotify(s', j) == InNotify(s, j)
      && Lookup(s'.leases, j) == Lookup(s.leases, j)
      && Lookup(s'.attempts, j) == Lookup(s.attempts, j)
      && Lookup(s'.payloads, j) == Lookup(s.payloads, j)
      && Lookup(s'.states, j) == Lookup(s.states, j)
      && Lookup(s'.results, j) == Lookup(s.results, j)
  }

  /** The claim `id` holds after a step is its old one, still live if it changed, or a new one. */
  predicate ClaimInherited(w: World, w': World, id: string) {
    var s, s' := w.store, w'.store;
    (id in s'.states && s'.states[id].Claimed?) ==>
      (s'.states[id].leaseId !in w.issued
       || (&& id in s.states
           && s.states[id].MatchesLease(s'.states[id].workerId, s'.states[id].leaseId)
           && (s.states[id] == s'.states[id] || s.states[id].leaseExpiresMs > w.Now())))
  }

  /** One job moved, the others stayed. */
  ghost predicate Moved(limit: nat, w: World, w': World, id: string) {
    && w.nowUs == w'.nowUs && w.issued <= w'.issued
    && OnlyAt(w.store, w'.store, id)
    && JobConsistent(limit, w', id) && JobEvolves(w, w', id)
    && ClaimInherited(w, w', id)
    && (w'.store.notify == w.store.notify || w'.store.notify == [id] + w.store.notify)
  }

  lemma MovedJobs(limit: nat, w: World, w': World, id: string, j: string)
    requires Consistent(limit, w) && Moved(limit, w, w', id)
    ensures JobConsistent(limit, w', j) && JobEvolves(w, w', j)
    ensures j != id ==> Lookup(w'.store.states, j) == Lookup(w.store.states, j)
    ensures j != id && j in w.store.states && w.store.states[j].Claimed? ==> w.store.states[j].leaseId in w.issued
  {
    var s, s' := w.store, w'.store;
    if j != id {
      assert JobConsistent(limit, w, j);
      assert Lookup(s'.states, j) == Lookup(s.states, j);
      assert Lookup(s'.payloads, j) == Lookup(s.payloads, j);
      assert Lookup(s'.results, j) == Lookup(s.results, j);
      assert Lookup(s'.leases, j) == Lookup(s.leases, j);
      assert Lookup(s'.attempts, j) == Lookup(s.attempts, j);
    }
  }

  lemma MovedFences(limit: nat, w: World, w': World, id: string)
    requires Consistent(limit, w) && Moved(limit, w, w', id)
    ensures forall j, worker, lease :: Fenced(w, j, worker, lease) ==> Fenced(w', j, worker, lease)
  {
    forall j, worker, lease | Fenced(w, j, worker, lease) ensures Fenced(w', j, worker, lease) {
      MovedJobs(limit, w, w', id, j);
    }
  }

  lemma MovedLeases(limit: nat, w: World, w': World, id: string)
    requires Consistent(limit, w) && Moved(limit, w, w', id)
    ensures LeasesPrivate(w'.store)
    ensures forall lease :: Spent(w, lease) ==> Spent(w', lease)
  {
    var s, s' := w.store, w'.store;
    forall j | j in s'.states && s'.states[j].Claimed? && j != id
      ensures j in s.states && s.states[j] == s'.states[j] && s.states[j].leaseId in w.issued
    {
      MovedJobs(limit, w, w', id, j);
    }
  }

  /** Moving one job while the others stay preserves everything. */
  lemma MoveOne(limit: nat, w: World, w': World, id: string)
    requires Consistent(limit, w) && Moved(limit, w, w', id)
    ensures Consistent(limit, w') && Evolves(w, w')
  {
    forall j ensures JobConsistent(limit, w', j) && JobEvolves(w, w', j) {
      MovedJobs(limit, w, w', id, j);
    }
    MovedFences(limit, w, w', id);
    MovedLeases(limit, w, w', id);
  }

  /** Time passing, a lease id used up by an empty queue, and refused calls. */
  lemma StayPut(limit: nat, w: World, w': World)
    requires Consistent(limit, w)
    requires w.nowUs <= w'.nowUs && w.issued <= w'.issued && w'.store == w.store
    ensures Consistent(limit, w') && Evolves(w, w')
  {
    NowMonotone(w.nowUs, w'.nowUs);
    forall j ensures JobConsistent(limit, w', j) {
      assert JobConsistent(limit, w, j);
    }
  }

  lemma ClaimTakesHead(limit: nat, w: World, worker: string, lease: string, expires: nat)
    requires Consistent(limit, w)
    ensures var (s', reply) := Claim(w.store, worker, lease, expires);
            && (w.store.queue == [] ==> s' == w.store && reply.None?)
            && (w.store.queue != [] ==>
                  var id := w.store.queue[0];
                  && id in w.store.payloads
                  && id in w.store.states && w.store.states[id].Queued?
                  && reply == Some(ClaimReply(id, w.store.payloads[id], Counter(w.store, id) + 1))
                  && s' == w.store.(queue := w.store.queue[1..],
                                    attempts := w.store.attempts[id := Counter(w.store, id) + 1],
                                    states := w.store.states[id := Claimed(worker, lease, expires, Counter(w.store, id) + 1)],
                                    leases := w.store.leases[id := expires]))
  {
    if w.store.queue != [] {
      var id := w.store.queue[0];
      assert JobConsistent(limit, w, id);
      assert id in multiset(w.store.queue);
    }
  }

  lemma ClaimKeeps(limit: nat, w: World, worker: string, lease: string, leaseMs: nat)
    requires Consistent(limit, w) && lease !in w.issued
    ensures var w' := Apply(w, DoClaim(worker, lease, leaseMs));
            Consistent(limit, w') && Evolves(w, w')
  {
    var w' := Apply(w, DoClaim(worker, lease, leaseMs));
    var s, s' := w.store, w'.store;
    ClaimTakesHead(limit, w, worker, lease, w.Now() + leaseMs);
    if s.queue != [] {
      var id := s.queue[0];
      assert s.queue == [id] + s.queue[1..];
      assert JobConsistent(limit, w, id);
      assert id in multiset(s.queue);
      MoveOne(limit, w, w', id);
    } else {
      StayPut(limit, w, w');
    }
  }

  lemma SubmitKeeps(limit: nat, w: World, id: string, payload: Payload)
    requires Consistent(limit, w) && 1 <= limit
    requires Enabled(limit, w, Submit(id, payload))
    ensures var w' := Apply(w, Submit(id, payload)); Consistent(limit, w') && Evolves(w, w')
  {
    assert JobConsistent(limit, w, id);
    MoveOne(limit, w, Apply(w, Submit(id, payload)), id);
  }

  lemma HeartbeatKeeps(limit: nat, w: World, id: string, worker: string, lease: string, leaseMs: nat)
    requires Consistent(limit, w)
    ensures var w' := Apply(w, DoHeartbeat(id, worker, lease, leaseMs)); Consistent(limit, w') && Evolves(w, w')
  {
    var w' := Apply(w, DoHeartbeat(id, worker, lease, leaseMs));
    assert JobConsistent(limit, w, id);
    if Holds(w.store, id, worker, lease, w.Now()) {
      MoveOne(limit, w, w', id);
    } else {
      StayPut(limit, w, w');
    }
  }

  lemma CompleteKeeps(limit: nat, w: World, id: string, worker: string, lease: string, result: ResultDoc)
    requires Consistent(limit, w)
    ensures var w' := Apply(w, DoComplete(id, worker, lease, result)); Consistent(limit, w') && Evolves(w, w')
  {
    var w' := Apply(w, DoComplete(id, worker, lease, result));
    assert JobConsistent(limit, w, id);
    if Holds(w.store, id, worker, lease, w.Now()) {
      MoveOne(limit, w, w', id);
    } else {
      StayPut(limit, w, w');
    }
  }

  lemma FinishErrorMoves(limit: nat, w: World, e: Event)
    requires Consistent(limit, w) && e.DoFinishError? && Enabled(limit, w, e)
    requires Holds(w.store, e.id, e.worker, e.lease, w.Now())
    ensures var w' := Apply(w, e);
            JobConsistent(limit, w', e.id) && JobEvolves(w, w', e.id) && ClaimInherited(w, w', e.id)
  {
    assert JobConsistent(limit, w, e.id);
  }

  lemma FinishErrorKeeps(limit: nat, w: World, e: Event)
    requires Consistent(limit, w) && e.DoFinishError? && Enabled(limit, w, e)
    ensures Consistent(limit, Apply(w, e)) && Evolves(w, Apply(w, e))
  {
    if Holds(w.store, e.id, e.worker, e.lease, w.Now()) {
      FinishErrorMoves(limit, w, e);
      MoveOne(limit, w, Apply(w, e), e.id);
    } else {
      StayPut(limit, w, Apply(w, e));
    }
  }

  lemma FailInvalidKeeps(limit: nat, w: World, id: string, worker: string, lease: string, error: string)
    requires Consistent(limit, w)
    ensures var w' := Apply(w, DoFailInvalid(id, worker, lease, error)); Consistent(limit, w') && Evolves(w, w')
  {
    var w' := Apply(w, DoFailInvalid(id, worker, lease, error));
    assert JobConsistent(limit, w, id);
    if Holds(w.store, id, worker, lease, w.Now()) {
      MoveOne(limit, w, w', id);
    } else {
      StayPut(limit, w, w');
    }
  }

  /** One pass of the sweep over an expired lease of a consistent store requeues the job, fails it,
      or strands it; in each case that is the one job that moves. */
  lemma SweepOneMoves(limit: nat, w: World, w': World, id: string, maxAttempts: nat)
    requires Consistent(limit, w)
    requires 1 <= maxAttempts <= limit && Expired(w.store.leases, id, w.Now())
    requires w' == w.(store := SweepOne(w.store, id, maxAttempts, w.Now()).store)
    ensures JobConsistent(limit, w', id) && JobEvolves(w, w', id) && ClaimInherited(w, w', id)
  {
    assert JobConsistent(limit, w, id);
    var s := w.store;
    assert Max(Counter(s, id), s.states[id].attempt) == Counter(s, id);
  }

  /** `s'` is `s` with some of the entries of `id` rewritten. */
  predicate WrittenAt(s: Store, s': Store, id: string) {
    && s'.attempts == s.attempts && s'.payloads == s.payloads
    && (s'.leases == s.leases || s'.leases == s.leases - {id})
    && (s'.queue == s.queue || s'.queue == s.queue + [id])
    && (s'.notify == s.notify || s'.notify == [id] + s.notify)
    && (s'.states == s.states || (id in s'.states && s'.states == s.states[id := s'.states[id]]))
    && (s'.results == s.results || (id in s'.results && s'.results == s.results[id := s'.results[id]]))
  }

  lemma SweepOneWritesAt(s: Store, id: string, maxAttempts: nat, now: nat)
    ensures WrittenAt(s, SweepOne(s, id, maxAttempts, now).store, id)
  {
  }

  lemma WrittenOnlyAt(s: Store, s': Store, id: string)
    requires WrittenAt(s, s', id)
    ensures OnlyAt(s, s', id)
  {
  }

  lemma SweepOneKeeps(limit: nat, w: World, w': World, id: string, maxAttempts: nat)
    requires Consistent(limit, w)
    requires 1 <= maxAttempts <= limit && Expired(w.store.leases, id, w.Now())
    requires w' == w.(store := SweepOne(w.store, id, maxAttempts, w.Now()).store)
    ensures Consistent(limit, w') && Evolves(w, w') && OnlyAt(w.store, w'.store, id)
  {
    SweepOneMoves(limit, w, w', id, maxAttempts);
    SweepOneWritesAt(w.store, id, maxAttempts, w.Now());
    WrittenOnlyAt(w.store, w'.store, id);
    assert Moved(limit, w, w', id);
    MoveOne(limit, w, w', id);
  }

  lemma EvolvesReflexive(w: World)
    ensures Evolves(w, w)
  {
  }

  lemma OnlyAtThrough(w: World, mid: World, w': World, ids: seq<string>, last: string, j: string)
    requires j !in ids && last in ids && OnlyAt(mid.store, w'.store, last)
    requires Lookup(mid.store.leases, j) == Lookup(w.store.leases, j)
    requires Lookup(mid.store.states, j) == Lookup(w.store.states, j)
    ensures Lookup(w'.store.leases, j) == Lookup(w.store.leases, j)
    ensures Lookup(w'.store.states, j) == Lookup(w.store.states, j)
  {
    assert j != last;
    assert Lookup(w'.store.leases, j) == Lookup(mid.store.leases, j);
    assert Lookup(w'.store.states, j) == Lookup(mid.store.states, j);
  }

  /** After a whole batch, or as much of it as runs before an error: all is kept, and no job outside the
      batch has changed. */
  lemma {:induction false} SweepKeeps(limit: nat, w: World, ids: seq<string>, maxAttempts: nat)
    requires Consistent(limit, w) && 1 <= maxAttempts <= limit
    requires Distinct(ids) && forall i :: 0 <= i < |ids| ==> Expired(w.store.leases, ids[i], w.Now())
    ensures var w' := w.(store := Sweep(w.store, ids, maxAttempts, w.Now()).store);
            && Consistent(limit, w') && Evolves(w, w')
            && forall j :: j !in ids ==> Lookup(w'.store.leases, j) == Lookup(w.store.leases, j)
                                         && Lookup(w'.store.states, j) == Lookup(w.store.states, j)
    decreases |ids|
  {
    if ids == [] {
      EvolvesReflexive(w);
    } else {
      var init, last := ids[..|ids| - 1], ids[|ids| - 1];
      SweepKeeps(limit, w, init, maxAttempts);
      var mid := w.(store := Sweep(w.store, init, maxAttempts, w.Now()).store);
      var w' := w.(store := Sweep(w.store, ids, maxAttempts, w.Now()).store);
      if !Sweep(w.store, init, maxAttempts, w.Now()).raised {
        assert Lookup(mid.store.leases, last) == Lookup(w.store.leases, last);
        SweepOneKeeps(limit, mid, w', last, maxAttempts);
        EvolvesTransitive(w, mid, w');
        forall j | j !in ids
          ensures Lookup(w'.store.leases, j) == Lookup(w.store.leases, j)
                  && Lookup(w'.store.states, j) == Lookup(w.store.states, j)
        {
          assert j !in init;
          OnlyAtThrough(w, mid, w', ids, last, j);
        }
      }
    }
  }

  /** A sweep adds no lease and claims nothing. */
  lemma SweptOneClaimWasClaim(s: Store, last: string, maxAttempts: nat, now: nat, id: string)
    ensures var s' := SweepOne(s, last, maxAttempts, now).store;
            && s'.payloads == s.payloads
            && (id in s'.leases ==> Lookup(s'.leases, id) == Lookup(s.leases, id))
            && (id in s'.states && s'.states[id].Claimed? ==> Lookup(s.states, id) == Some(s'.states[id]))
  {
  }

  lemma {:induction false} SweptClaimWasClaim(s: Store, ids: seq<string>, maxAttempts: nat, now: nat, id: string)
    ensures var s' := Sweep(s, ids, maxAttempts, now).store;
            && s'.payloads == s.payloads
            && (id in s'.leases ==> Lookup(s'.leases, id) == Lookup(s.leases, id))
            && (id in s'.states && s'.states[id].Claimed? ==> Lookup(s.states, id) == Some(s'.states[id]))
    decreases |ids|
  {
    if ids != [] {
      SweptClaimWasClaim(s, ids[..|ids| - 1], maxAttempts, now, id);
      SweptOneClaimWasClaim(Sweep(s, ids[..|ids| - 1], maxAttempts, now).store, ids[|ids| - 1], maxAttempts, now, id);
    }
  }

  /** Every enabled step keeps the invariant and the past. */
  lemma StepKeeps(limit: nat, w: World, e: Event)
    requires 1 <= limit && Consistent(limit, w) && Enabled(limit, w, e)
    ensures Consistent(limit, Apply(w, e)) && Evolves(w, Apply(w, e))
  {
    match e
    case Tick(_) => StayPut(limit, w, Apply(w, e));
    case Submit(id, payload) => SubmitKeeps(limit, w, id, payload);
    case DoClaim(worker, lease, leaseMs) => ClaimKeeps(limit, w, worker, lease, leaseMs);
    case DoHeartbeat(id, worker, lease, leaseMs) => HeartbeatKeeps(limit, w, id, worker, lease, leaseMs);
    case DoComplete(id, worker, lease, result) => CompleteKeeps(limit, w, id, worker, lease, result);
    case DoFinishError(_, _, _, _, _, _, _) => FinishErrorKeeps(limit, w, e);
    case DoFailInvalid(id, worker, lease, error) => FailInvalidKeeps(limit, w, id, worker, lease, error);
    case DoSweep(ids, _, maxAttempts) => SweepKeeps(limit, w, ids, maxAttempts);
  }
}
