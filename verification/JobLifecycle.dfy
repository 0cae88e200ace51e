/** One job at a time: what an accepted call writes, and every way a job's state can change. */
module JobLifecycle {
  import opened Wrappers
  import opened ProofProtocol
  import opened LeaseQueue
  import opened LeaseQueueInvariant
  import opened LeaseQueueRuns
  import opened ExpirySweep

  lemma MillisecondsOf(nowUs: nat)
    ensures NowMs(nowUs) == nowUs / 1000
  {
  }

  /** The four scripts under a lease do something exactly while the job is claimed by this worker under this
      lease and the lease has not run out; otherwise they change nothing. */
  lemma AcceptedExactlyWhen(w: World, e: Event)
    requires e.DoHeartbeat? || e.DoComplete? || e.DoFinishError? || e.DoFailInvalid?
    ensures Reply(w, e) != 0 <==>
              && e.id in w.store.states && w.store.states[e.id].Claimed?
              && w.store.states[e.id].workerId == e.worker && w.store.states[e.id].leaseId == e.lease
              && w.store.states[e.id].leaseExpiresMs > w.nowUs / 1000
    ensures Reply(w, e) != 0 ==>
              Reply(w, e) == if e.DoFinishError? && e.retryable && w.store.states[e.id].attempt < e.maxAttempts then 2 else 1
    ensures Reply(w, e) == 0 ==> Apply(w, e) == w
  {
    MillisecondsOf(w.nowUs);
  }

  /** What each of them writes when it does. */
  lemma AcceptedWrites(w: World, e: Event)
    requires e.DoHeartbeat? || e.DoComplete? || e.DoFinishError? || e.DoFailInvalid?
    requires Reply(w, e) != 0
    ensures e.id in w.store.states && w.store.states[e.id].Claimed?
    ensures var (s, id, attempt, now) := (w.store, e.id, w.store.states[e.id].attempt, w.nowUs / 1000);
            && (e.DoHeartbeat? ==>
                  Apply(w, e) == w.(store := s.(
                    states := s.states[id := Claimed(e.worker, e.lease, now + e.leaseMs, attempt)],
                    leases := s.leases[id := now + e.leaseMs])))
            && (e.DoComplete? ==>
                  Apply(w, e) == w.(store := s.(
                    results := s.results[id := e.result],
                    states := s.states[id := Completed(now, attempt)],
                    leases := s.leases - {id},
                    notify := [id] + s.notify)))
            && (e.DoFinishError? && e.retryable && attempt < e.maxAttempts ==>
                  Apply(w, e) == w.(store := s.(
                    states := s.states[id := Queued],
                    leases := s.leases - {id},
                    queue := s.queue + [id])))
            && (e.DoFinishError? && !(e.retryable && attempt < e.maxAttempts) ==>
                  Apply(w, e) == w.(store := s.(
                    results := s.results[id := e.result],
                    states := s.states[id := Failed(now, attempt, e.error)],
                    leases := s.leases - {id},
                    notify := [id] + s.notify)))
            && (e.DoFailInvalid? ==>
                  Apply(w, e) == w.(store := s.(
                    states := s.states[id := Failed(now, attempt, e.error)],
                    leases := s.leases - {id},
                    notify := [id] + s.notify)))
  {
    MillisecondsOf(w.nowUs);
  }

  // ---------------------------------------------------------------- on any store

  /** CLAIM would take this entry of the queue. */
  predicate Claimable(s: Store, id: string) {
    id in s.payloads && id in s.states && s.states[id] == Queued
  }

  /** On any store, consistent or not, CLAIM discards the entries of the queue that have no payload or are not queued,
      up to the first that can be claimed; that one it counts, gives the lease, and returns. */
  lemma {:induction false} ClaimSkipsStale(s: Store, worker: string, lease: string, expires: nat, i: nat)
    requires i <= |s.queue| && forall j :: 0 <= j < i ==> !Claimable(s, s.queue[j])
    requires i < |s.queue| ==> Claimable(s, s.queue[i])
    ensures i == |s.queue| ==> Claim(s, worker, lease, expires) == (s.(queue := []), None)
    ensures i < |s.queue| ==>
              var (id, attempt) := (s.queue[i], Counter(s, s.queue[i]) + 1);
              Claim(s, worker, lease, expires) ==
                (s.(queue := s.queue[i + 1..],
                    attempts := s.attempts[id := attempt],
                    states := s.states[id := Claimed(worker, lease, expires, attempt)],
                    leases := s.leases[id := expires]),
                 Some(ClaimReply(id, s.payloads[id], attempt)))
    decreases i
  {
    if i > 0 {
      var popped := s.(queue := s.queue[1..]);
      assert !Claimable(s, s.queue[0]);
      assert forall j :: 0 <= j < |popped.queue| ==> popped.queue[j] == s.queue[j + 1];
      ClaimSkipsStale(popped, worker, lease, expires, i - 1);
      assert i < |s.queue| ==> popped.queue[i..] == s.queue[i + 1..];
    }
  }

  /** On any store, one pass of the sweep removes the entry from the lease set whatever it finds, unless it raises;
      it raises only at a claim that has run out, at its last attempt, with a payload that cannot be indexed, and
      then leaves all as it was. The attempt is the larger of counter and claim. */
  lemma SweptOnAnyStore(s: Store, id: string, maxAttempts: nat, now: nat)
    ensures var r := SweepOne(s, id, maxAttempts, now);
            var gone := s.(leases := s.leases - {id});
            if !(id in s.states && s.states[id].Claimed? && s.states[id].leaseExpiresMs <= now) then r == Swept(gone, 0, 0, false)
            else
              var count := if id in s.attempts then s.attempts[id] else 0;
              var attempt := if count < s.states[id].attempt then s.states[id].attempt else count;
              if attempt < maxAttempts then
                r == Swept(gone.(states := s.states[id := Queued], queue := s.queue + [id]), 1, 0, false)
              else if id !in s.payloads || s.payloads[id].NotJson? then r == Swept(gone, 0, 0, false)
              else if s.payloads[id].Scalar? then r == Swept(s, 0, 0, true)
              else
                var error := "proof lease expired after reaching maximum attempts";
                var members := if s.payloads[id].Job? then IdentityOf(s.payloads[id].job) else s.payloads[id].members;
                r == Swept(gone.(results := s.results[id := ResultDoc(members, Errored(error))],
                                 states := s.states[id := Failed(now, attempt, error)],
                                 notify := [id] + s.notify), 0, 1, false)
  {
  }

  // ---------------------------------------------------------------- the sweep, job by job

  /** One pass over an expired lease of a consistent store: the job is requeued while it has attempts left;
      else it is failed with what Lua finds in its payload, or, if that is nothing, left as it is. */
  lemma SweptOneSpelled(limit: nat, w: World, id: string, maxAttempts: nat)
    requires Consistent(limit, w) && Expired(w.store.leases, id, w.Now())
    ensures id in w.store.states && w.store.states[id].Claimed? && id in w.store.payloads
    ensures var (s', attempt) := (SweepOne(w.store, id, maxAttempts, w.Now()).store, w.store.states[id].attempt);
            var payload := w.store.payloads[id];
            && id in s'.states
            && (attempt < maxAttempts ==>
                  s'.states[id] == Queued && id !in s'.leases && id !in s'.results && s'.queue == w.store.queue + [id])
            && (attempt >= maxAttempts ==> s'.queue == w.store.queue)
            && (attempt >= maxAttempts && (payload.Job? || payload.OtherJson?) ==>
                  && s'.states[id] == Failed(w.nowUs / 1000, attempt, LEASE_EXPIRED_MAX_ATTEMPTS_ERROR)
                  && id !in s'.leases
                  && Lookup(s'.results, id) == Some(ResultDoc(if payload.Job? then IdentityOf(payload.job) else payload.members,
                                                              Errored(LEASE_EXPIRED_MAX_ATTEMPTS_ERROR))))
            && (attempt >= maxAttempts && (payload.NotJson? || payload.Scalar?) ==>
                  && s'.states[id] == w.store.states[id] && id !in s'.results
                  && (id in s'.leases <==> payload.Scalar?))
  {
    assert JobConsistent(limit, w, id);
    MillisecondsOf(w.nowUs);
  }

  /** Where a sweep that serves this lease at `now` takes its job from `s` to `s'`. */
  predicate ServedTo(s: Store, s': Store, now: nat, maxAttempts: nat, id: string)
    requires id in s.states && s.states[id].Claimed? && id in s.payloads
  {
    var (attempt, payload) := (s.states[id].attempt, s.payloads[id]);
    && id in s'.states
    && (attempt < maxAttempts ==> s'.states[id] == Queued && id !in s'.leases && id !in s'.results)
    && (attempt >= maxAttempts && (payload.Job? || payload.OtherJson?) ==>
          && s'.states[id] == Failed(now, attempt, LEASE_EXPIRED_MAX_ATTEMPTS_ERROR)
          && id !in s'.leases
          && Lookup(s'.results, id) == Some(ResultDoc(if payload.Job? then IdentityOf(payload.job) else payload.members,
                                                      Errored(LEASE_EXPIRED_MAX_ATTEMPTS_ERROR))))
    && (attempt >= maxAttempts && (payload.NotJson? || payload.Scalar?) ==>
          s'.states[id] == s.states[id] && id !in s'.results)
  }

  lemma LastServed(limit: nat, w: World, ids: seq<string>, maxAttempts: nat)
    requires Consistent(limit, w) && 1 <= maxAttempts <= limit && ids != [] && Sweepable(w, ids)
    requires !Sweep(w.store, ids, maxAttempts, w.Now()).raised
    ensures var (last, s') := (ids[|ids| - 1], Sweep(w.store, ids, maxAttempts, w.Now()).store);
            && last in w.store.states && w.store.states[last].Claimed? && last in w.store.payloads
            && ServedTo(w.store, s', w.nowUs / 1000, maxAttempts, last)
    ensures var mid := Sweep(w.store, ids[..|ids| - 1], maxAttempts, w.Now()).store;
            OnlyAt(mid, Sweep(w.store, ids, maxAttempts, w.Now()).store, ids[|ids| - 1])
  {
    var init, last := ids[..|ids| - 1], ids[|ids| - 1];
    var mid := w.(store := Sweep(w.store, init, maxAttempts, w.Now()).store);
    var w' := w.(store := Sweep(w.store, ids, maxAttempts, w.Now()).store);
    SweepReachesLast(limit, w, ids, maxAttempts);
    SweepKeeps(limit, w, init, maxAttempts);
    assert Lookup(mid.store.states, last) == Lookup(w.store.states, last);
    assert JobEvolves(w, mid, last) && JobConsistent(limit, w, last);
    assert w'.store == SweepOne(mid.store, last, maxAttempts, w.Now()).store;
    SweptOneSpelled(limit, mid, last, maxAttempts);
    SweepOneKeeps(limit, mid, w', last, maxAttempts);
  }

  lemma {:induction false} EachServed(limit: nat, w: World, ids: seq<string>, maxAttempts: nat, id: string)
    requires Consistent(limit, w) && 1 <= maxAttempts <= limit && Sweepable(w, ids) && id in ids
    requires !Sweep(w.store, ids, maxAttempts, w.Now()).raised
    ensures id in w.store.states && w.store.states[id].Claimed? && id in w.store.payloads
    ensures ServedTo(w.store, Sweep(w.store, ids, maxAttempts, w.Now()).store, w.nowUs / 1000, maxAttempts, id)
    decreases |ids|
  {
    var init, last := ids[..|ids| - 1], ids[|ids| - 1];
    LastServed(limit, w, ids, maxAttempts);
    if id != last {
      SweepReachesLast(limit, w, ids, maxAttempts);
      EachServed(limit, w, init, maxAttempts, id);
      var (mid, s') := (Sweep(w.store, init, maxAttempts, w.Now()).store, Sweep(w.store, ids, maxAttempts, w.Now()).store);
      assert Lookup(s'.states, id) == Lookup(mid.states, id) && Lookup(s'.leases, id) == Lookup(mid.leases, id);
      assert Lookup(s'.results, id) == Lookup(mid.results, id);
    }
  }

  /** A job whose state a sweep changes had run out of its lease, and was served. */
  lemma SweepChanges(limit: nat, w: World, e: Event, id: string)
    requires 1 <= limit && Consistent(limit, w) && Enabled(limit, w, e) && e.DoSweep?
    requires Lookup(Apply(w, e).store.states, id) != Lookup(w.store.states, id)
    ensures id in e.ids && id in w.store.states && w.store.states[id].Claimed? && id in w.store.payloads
    ensures w.store.states[id].leaseExpiresMs <= w.nowUs / 1000
    ensures ServedTo(w.store, Apply(w, e).store, w.nowUs / 1000, e.maxAttempts, id)
    ensures w.store.queue <= Apply(w, e).store.queue
  {
    var k := Served(w.store, e.ids, e.maxAttempts);
    var served := e.ids[..k];
    SweepStopsAtServed(limit, w, e.ids, e.maxAttempts);
    assert forall i :: 0 <= i < k ==> served[i] == e.ids[i];
    SweepKeeps(limit, w, served, e.maxAttempts);
    assert id in served;
    EachServed(limit, w, served, e.maxAttempts, id);
    assert JobConsistent(limit, w, id);
    MillisecondsOf(w.nowUs);
    SweepAppends(w.store, e.ids, e.maxAttempts, w.Now());
  }

  /** `a` stands before `b` in `q`, both past its first `from` entries. */
  ghost predicate InOrder(q: seq<string>, from: nat, a: string, b: string) {
    exists i, j :: from <= i < j < |q| && q[i] == a && q[j] == b
  }

  lemma InOrderOn(q: seq<string>, more: seq<string>, from: nat, a: string, b: string)
    requires InOrder(q, from, a, b)
    ensures InOrder(q + more, from, a, b)
  {
    var i, j :| from <= i < j < |q| && q[i] == a && q[j] == b;
    assert (q + more)[i] == a && (q + more)[j] == b;
  }

  lemma QueuedLater(limit: nat, w: World, w': World, id: string)
    requires Consistent(limit, w) && Consistent(limit, w') && w.store.queue <= w'.store.queue
    requires id in w.store.states && !w.store.states[id].Queued? && id in w'.store.states && w'.store.states[id].Queued?
    ensures exists i :: |w.store.queue| <= i < |w'.store.queue| && w'.store.queue[i] == id
  {
    assert JobConsistent(limit, w, id) && JobConsistent(limit, w', id);
    var (q, q') := (w.store.queue, w'.store.queue);
    var tail := q'[|q|..];
    assert q' == q + tail && id in multiset(tail);
    var i :| 0 <= i < |tail| && tail[i] == id;
    assert q'[|q| + i] == id;
  }

  /** The last entry of a batch, if it is requeued, comes after the queue so far. */
  lemma LastGoesToEnd(limit: nat, w: World, ids: seq<string>, maxAttempts: nat)
    requires 1 <= limit && Consistent(limit, w) && 1 <= maxAttempts <= limit && ids != [] && Sweepable(w, ids)
    requires !Sweep(w.store, ids, maxAttempts, w.Now()).raised
    ensures var (mid, s', last) := (Sweep(w.store, ids[..|ids| - 1], maxAttempts, w.Now()).store,
                                    Sweep(w.store, ids, maxAttempts, w.Now()).store, ids[|ids| - 1]);
            && mid.queue <= s'.queue
            && (forall id :: id in ids[..|ids| - 1] ==> Lookup(s'.states, id) == Lookup(mid.states, id))
            && (Lookup(s'.states, last) == Some(Queued) ==> s'.queue == mid.queue + [last])
  {
    var init, last := ids[..|ids| - 1], ids[|ids| - 1];
    var mid := w.(store := Sweep(w.store, init, maxAttempts, w.Now()).store);
    SweepReachesLast(limit, w, ids, maxAttempts);
    SweptOneSpelled(limit, mid, last, maxAttempts);
    LastServed(limit, w, ids, maxAttempts);
    assert last !in init;
  }

  /** An earlier entry that is requeued comes before a last one that is. */
  lemma LastComesLast(limit: nat, w: World, ids: seq<string>, maxAttempts: nat, i: nat)
    requires 1 <= limit && Consistent(limit, w) && 1 <= maxAttempts <= limit && i < |ids| - 1 && Sweepable(w, ids)
    requires !Sweep(w.store, ids, maxAttempts, w.Now()).raised
    ensures var s' := Sweep(w.store, ids, maxAttempts, w.Now()).store;
            Lookup(s'.states, ids[i]) == Lookup(s'.states, ids[|ids| - 1]) == Some(Queued) ==>
              InOrder(s'.queue, |w.store.queue|, ids[i], ids[|ids| - 1])
  {
    var init, last := ids[..|ids| - 1], ids[|ids| - 1];
    var mid := w.(store := Sweep(w.store, init, maxAttempts, w.Now()).store);
    var s' := Sweep(w.store, ids, maxAttempts, w.Now()).store;
    LastGoesToEnd(limit, w, ids, maxAttempts);
    assert ids[i] == init[i];
    if Lookup(s'.states, ids[i]) == Lookup(s'.states, last) == Some(Queued) {
      SweepKeeps(limit, w, init, maxAttempts);
      SweepAppends(w.store, init, maxAttempts, w.Now());
      EachServed(limit, w, init, maxAttempts, ids[i]);
      QueuedLater(limit, w, mid, ids[i]);
      var p :| |w.store.queue| <= p < |mid.store.queue| && mid.store.queue[p] == ids[i];
      assert s'.queue[p] == ids[i] && s'.queue[|mid.store.queue|] == last;
    }
  }

  lemma {:induction false} SweptInOrder(limit: nat, w: World, ids: seq<string>, maxAttempts: nat, i: nat, j: nat)
    requires 1 <= limit && Consistent(limit, w) && 1 <= maxAttempts <= limit && Sweepable(w, ids) && i < j < |ids|
    requires !Sweep(w.store, ids, maxAttempts, w.Now()).raised
    ensures var s' := Sweep(w.store, ids, maxAttempts, w.Now()).store;
            Lookup(s'.states, ids[i]) == Lookup(s'.states, ids[j]) == Some(Queued) ==>
              InOrder(s'.queue, |w.store.queue|, ids[i], ids[j])
    decreases |ids|
  {
    var init := ids[..|ids| - 1];
    if j < |init| {
      var (mid, s') := (Sweep(w.store, init, maxAttempts, w.Now()).store, Sweep(w.store, ids, maxAttempts, w.Now()).store);
      LastGoesToEnd(limit, w, ids, maxAttempts);
      assert ids[i] == init[i] && ids[j] == init[j];
      SweptInOrder(limit, w, init, maxAttempts, i, j);
      if InOrder(mid.queue, |w.store.queue|, ids[i], ids[j]) {
        InOrderOn(mid.queue, s'.queue[|mid.queue|..], |w.store.queue|, ids[i], ids[j]);
        assert mid.queue + s'.queue[|mid.queue|..] == s'.queue;
      }
    } else {
      LastComesLast(limit, w, ids, maxAttempts, i);
    }
  }

  /** The jobs a sweep requeues go to the end of the queue in the order in which their leases ran out. */
  lemma SweepInOrder(limit: nat, w: World, ids: seq<string>, maxAttempts: nat, i: nat, j: nat)
    requires 1 <= limit && Consistent(limit, w) && 1 <= maxAttempts <= limit && Sweepable(w, ids) && i < j < |ids|
    requires !Sweep(w.store, ids, maxAttempts, w.Now()).raised
    ensures var s' := Sweep(w.store, ids, maxAttempts, w.Now()).store;
            Lookup(s'.states, ids[i]) == Lookup(s'.states, ids[j]) == Some(Queued) ==>
              exists p, q :: |w.store.queue| <= p < q < |s'.queue| && s'.queue[p] == ids[i] && s'.queue[q] == ids[j]
  {
    SweptInOrder(limit, w, ids, maxAttempts, i, j);
  }

  // ---------------------------------------------------------------- every change

  /** A job comes in queued, with its payload, and leaves the queue from its head, by a claim that counts it
      and gives it a new lease; from a terminal state it goes nowhere. */
  lemma UnclaimedChanges(limit: nat, w: World, e: Event, id: string)
    requires 1 <= limit && Consistent(limit, w) && Enabled(limit, w, e)
    requires id !in w.store.states || !w.store.states[id].Claimed?
    requires Lookup(Apply(w, e).store.states, id) != Lookup(w.store.states, id)
    ensures id in Apply(w, e).store.states
    ensures id !in w.store.states ==>
              var s' := Apply(w, e).store;
              && e.Submit? && e.id == id
              && s' == w.store.(payloads := w.store.payloads[id := e.payload], states := w.store.states[id := Queued],
                                queue := w.store.queue + [id])
    ensures id in w.store.states ==>
              var (s, s') := (w.store, Apply(w, e).store);
              && s.states[id].Queued? && e.DoClaim? && s.queue == [id] + s'.queue
              && s'.states[id] == Claimed(e.worker, e.lease, w.nowUs / 1000 + e.leaseMs, Counter(s, id) + 1)
              && Lookup(s'.leases, id) == Some(w.nowUs / 1000 + e.leaseMs) && Counter(s', id) == Counter(s, id) + 1
  {
    assert JobConsistent(limit, w, id);
    MillisecondsOf(w.nowUs);
    match e
    case DoSweep(_, _, _) => SweepChanges(limit, w, e, id);
    case DoClaim(worker, lease, leaseMs) => ClaimTakesHead(limit, w, worker, lease, w.Now() + leaseMs);
    case _ =>
  }

  lemma CallChanges(limit: nat, w: World, e: Event, id: string)
    requires Consistent(limit, w) && (e.DoHeartbeat? || e.DoComplete? || e.DoFinishError? || e.DoFailInvalid?)
    requires Lookup(Apply(w, e).store.states, id) != Lookup(w.store.states, id)
    ensures id == e.id && Reply(w, e) != 0 && id !in w.store.results
  {
    AcceptedExactlyWhen(w, e);
    AcceptedWrites(w, e);
    assert JobConsistent(limit, w, e.id);
  }

  /** What changes a claimed job's state. */
  lemma ClaimChangedBy(limit: nat, w: World, e: Event, id: string)
    requires 1 <= limit && Consistent(limit, w) && Enabled(limit, w, e)
    requires id in w.store.states && w.store.states[id].Claimed?
    requires Lookup(Apply(w, e).store.states, id) != Lookup(w.store.states, id)
    ensures if w.store.states[id].leaseExpiresMs > w.nowUs / 1000
            then (e.DoHeartbeat? || e.DoComplete? || e.DoFinishError? || e.DoFailInvalid?)
                 && id == e.id && Reply(w, e) != 0 && id !in w.store.results
            else e.DoSweep?
  {
    match e
    case DoSweep(_, _, _) => SweepChanges(limit, w, e, id);
    case DoClaim(worker, lease, leaseMs) => ClaimTakesHead(limit, w, worker, lease, w.Now() + leaseMs);
    case Tick(_) =>
    case Submit(_, _) =>
    case _ =>
      CallChanges(limit, w, e, id);
      AcceptedExactlyWhen(w, e);
  }

  /** A live claim changes only by a call under its own lease: a heartbeat moves its expiry; COMPLETE and the
      two ways to fail it record the time, the attempt, and the result or error they bring, and FAIL_INVALID_CLAIM
      no result; a retryable failure with attempts left puts it at the end of the queue. */
  lemma LiveClaimChanges(limit: nat, w: World, e: Event, id: string)
    requires 1 <= limit && Consistent(limit, w) && Enabled(limit, w, e)
    requires id in w.store.states && w.store.states[id].Claimed? && w.store.states[id].leaseExpiresMs > w.nowUs / 1000
    requires Lookup(Apply(w, e).store.states, id) != Lookup(w.store.states, id)
    ensures id in Apply(w, e).store.states
    ensures var (s, s', state, now) := (w.store, Apply(w, e).store, w.store.states[id], w.nowUs / 1000);
            && (e.DoHeartbeat? || e.DoComplete? || e.DoFinishError? || e.DoFailInvalid?)
            && e.id == id && e.worker == state.workerId && e.lease == state.leaseId
            && (e.DoHeartbeat? ==>
                  s'.states[id] == Claimed(e.worker, e.lease, now + e.leaseMs, state.attempt)
                  && Lookup(s'.leases, id) == Some(now + e.leaseMs))
            && (e.DoComplete? ==> s'.states[id] == Completed(now, state.attempt) && Lookup(s'.results, id) == Some(e.result))
            && (e.DoFinishError? && e.retryable && state.attempt < e.maxAttempts ==>
                  s'.states[id] == Queued && s'.queue == s.queue + [id] && id !in s'.results)
            && (e.DoFinishError? && !(e.retryable && state.attempt < e.maxAttempts) ==>
                  s'.states[id] == Failed(now, state.attempt, e.error) && Lookup(s'.results, id) == Some(e.result))
            && (e.DoFailInvalid? ==> s'.states[id] == Failed(now, state.attempt, e.error) && id !in s'.results)
            && (!e.DoHeartbeat? ==> id !in s'.leases)
  {
    ClaimChangedBy(limit, w, e, id);
    AcceptedExactlyWhen(w, e);
    AcceptedWrites(w, e);
  }

  /** An expired claim changes only by a sweep that was given it: back into the queue while it has attempts
      left, else failed with the time, the attempt, the one error and what Lua finds in its payload. */
  lemma ExpiredClaimChanges(limit: nat, w: World, e: Event, id: string)
    requires 1 <= limit && Consistent(limit, w) && Enabled(limit, w, e)
    requires id in w.store.states && w.store.states[id].Claimed? && w.store.states[id].leaseExpiresMs <= w.nowUs / 1000
    requires Lookup(Apply(w, e).store.states, id) != Lookup(w.store.states, id)
    ensures id in Apply(w, e).store.states && id in w.store.payloads && e.DoSweep? && id in e.ids
    ensures var (s, s', attempt, payload) := (w.store, Apply(w, e).store, w.store.states[id].attempt, w.store.payloads[id]);
            && id !in s'.leases
            && (attempt < e.maxAttempts ==>
                  s'.states[id] == Queued && s.queue <= s'.queue && id !in s.queue && id in s'.queue && id !in s'.results)
            && (attempt >= e.maxAttempts ==>
                  && (payload.Job? || payload.OtherJson?)
                  && s'.states[id] == Failed(w.nowUs / 1000, attempt, LEASE_EXPIRED_MAX_ATTEMPTS_ERROR)
                  && Lookup(s'.results, id) == Some(ResultDoc(if payload.Job? then IdentityOf(payload.job) else payload.members,
                                                              Errored(LEASE_EXPIRED_MAX_ATTEMPTS_ERROR))))
  {
    ClaimChangedBy(limit, w, e, id);
    SweepChanges(limit, w, e, id);
    StepKeeps(limit, w, e);
    assert JobConsistent(limit, w, id) && JobConsistent(limit, Apply(w, e), id);
    assert id !in multiset(w.store.queue);
    assert Apply(w, e).store.states[id].Queued? ==> id in multiset(Apply(w, e).store.queue);
  }
}
