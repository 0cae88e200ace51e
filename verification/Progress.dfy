/** Which jobs a fleet of workers can still move, and which never move again. */
module Progress {
  import opened Wrappers
  import opened ProofProtocol
  import opened LeaseQueue
  import opened LeaseQueueInvariant
  import opened LeaseQueueRuns
  import opened ExpirySweep
  import opened WorkerFleet

  // ---------------------------------------------------------------- what can move

  /** The process is at work on the job under a lease that has not run out. */
  predicate HeldBy(f: Fleet, id: string, p: string) {
    var d := DutyOf(f, p);
    d.Holding? && d.id == id && Holds(f.world.store, id, d.worker, d.lease, f.world.Now())
  }

  ghost predicate Held(f: Fleet, id: string) { exists p :: HeldBy(f, id, p) }

  /** Claimed for the last time, with a payload no sweep can fail. */
  predicate Unfailable(limit: nat, s: Store, id: string) {
    && id in s.states && s.states[id].Claimed? && s.states[id].attempt >= limit
    && id in s.payloads && (s.payloads[id].NotJson? || s.payloads[id].Scalar?)
  }

  /** A sweep will raise at this lease, now or when it runs out: nobody can finish the job before. */
  ghost predicate Doomed(limit: nat, f: Fleet, k: string) {
    k in f.world.store.leases && RaisesIn(f.world.store, k, limit) && !Held(f, k)
  }

  ghost predicate BehindDoomed(limit: nat, f: Fleet, id: string)
    requires id in f.world.store.leases
  {
    exists k :: k in Ahead(f.world.store.leases, id) && Doomed(limit, f, k)
  }

  /** A queued job's turn comes: no sweep raises, or it is near enough to the front. */
  ghost predicate TurnComes(limit: nat, f: Fleet, id: string) {
    || NoJam(f.world, limit)
    || exists k, i :: FirstJam(limit, f.world, k) && 0 <= i < |f.world.store.queue| && f.world.store.queue[i] == id
                      && i < Budget(f, k)
  }

  /** Queued with a turn to come; or held; or claimed with a lease that a sweep will get to and can resolve. */
  ghost predicate Movable(limit: nat, f: Fleet, id: string) {
    var s := f.world.store;
    id in s.states &&
    match s.states[id]
    case Queued => TurnComes(limit, f, id)
    case Claimed(_, _, _, _) =>
      Held(f, id) || (id in s.leases && !Unfailable(limit, s, id) && !BehindDoomed(limit, f, id))
    case _ => false
  }

  function StageOf(f: Fleet, id: string): Option<JobState> {
    if id in f.world.store.states then Some(Stage(f.world.store.states[id])) else None
  }

  /** Some continuation moves the job. */
  ghost predicate CanMove(limit: nat, f: Fleet, id: string) {
    exists acts :: ActsPossible(limit, f, acts) && StageOf(Acts(limit, f, acts), id) != StageOf(f, id)
  }

  predicate Ended(f: Fleet, id: string) { id in f.world.store.states && f.world.store.states[id].Terminal() }

  /** Some continuation finishes the job. */
  ghost predicate CanEnd(limit: nat, f: Fleet, id: string) {
    exists acts :: ActsPossible(limit, f, acts) && Ended(Acts(limit, f, acts), id)
  }

  // ---------------------------------------------------------------- what cannot, never does

  lemma ForeignCallSpares(limit: nat, f: Fleet, p: string, call: Event, id: string)
    requires OwnCall(limit, f.world.store, DutyOf(f, p), call) && !HeldBy(f, id, p)
    ensures var s' := Apply(f.world, call).store;
            && Lookup(s'.states, id) == Lookup(f.world.store.states, id)
            && Lookup(s'.leases, id) == Lookup(f.world.store.leases, id)
  {
  }

  lemma ClaimSpares(limit: nat, w: World, e: Event, id: string)
    requires Consistent(limit, w) && e.DoClaim? && id in w.store.states && !w.store.states[id].Queued?
    ensures var s' := Apply(w, e).store;
            && Lookup(s'.states, id) == Lookup(w.store.states, id) && Lookup(s'.leases, id) == Lookup(w.store.leases, id)
  {
    ClaimTakesHead(limit, w, e.worker, e.lease, w.Now() + e.leaseMs);
  }

  /** What happens to an unheld claim, other than by sweeps: nothing. */
  lemma UnheldStays(limit: nat, f: Fleet, a: Act, id: string)
    requires 1 <= limit && Consistent(limit, f.world) && ActEnabled(limit, f, a)
    requires id in f.world.store.states && f.world.store.states[id].Claimed? && !Held(f, id) && !a.SweepBy?
    ensures var s' := ActStep(limit, f, a).world.store;
            && Lookup(s'.states, id) == Some(f.world.store.states[id])
            && Lookup(s'.leases, id) == Lookup(f.world.store.leases, id)
  {
    if a.ClaimBy? { ClaimSpares(limit, f.world, EventOf(limit, a).value, id); }
    else if a.CallBy? { ForeignCallSpares(limit, f, a.p, a.call, id); }
  }

  /** A claim that nobody holds is never held again. */
  lemma UnheldForGood(limit: nat, f: Fleet, a: Act, id: string)
    requires 1 <= limit && Consistent(limit, f.world) && ActEnabled(limit, f, a)
    requires id in f.world.store.states && f.world.store.states[id].Claimed? && !Held(f, id)
    requires Lookup(ActStep(limit, f, a).world.store.states, id) == Some(f.world.store.states[id])
    ensures !Held(ActStep(limit, f, a), id)
  {
    var f' := ActStep(limit, f, a);
    ActKeeps(limit, f, a);
    NowMonotone(f.world.nowUs, f'.world.nowUs);
    forall p ensures !HeldBy(f', id, p) {
      assert !HeldBy(f, id, p);
      if a.ClaimBy? { ClaimTakesHead(limit, f.world, a.worker, a.lease, f.world.Now() + a.leaseMs); }
    }
  }

  lemma SweepSparesUnlisted(limit: nat, f: Fleet, a: Act, id: string)
    requires Consistent(limit, f.world) && ActEnabled(limit, f, a) && a.SweepBy? && id !in a.ids
    ensures var s' := ActStep(limit, f, a).world.store;
            Lookup(s'.states, id) == Lookup(f.world.store.states, id) && Lookup(s'.leases, id) == Lookup(f.world.store.leases, id)
  {
    SweepKeeps(limit, f.world, a.ids, limit);
  }

  lemma DoomedSwept(limit: nat, f: Fleet, a: Act, k: string)
    requires 1 <= limit && Consistent(limit, f.world) && ActEnabled(limit, f, a) && Doomed(limit, f, k) && a.SweepBy?
    ensures var s' := ActStep(limit, f, a).world.store;
            && Lookup(s'.states, k) == Some(f.world.store.states[k])
            && Lookup(s'.leases, k) == Lookup(f.world.store.leases, k)
  {
    assert JobConsistent(limit, f.world, k);
    if k in a.ids {
      SweepLeavesJam(f.world.store, a.ids, limit, f.world.Now(), k);
    } else {
      SweepSparesUnlisted(limit, f, a, k);
    }
  }

  lemma DoomedStays(limit: nat, f: Fleet, a: Act, k: string)
    requires 1 <= limit && Consistent(limit, f.world) && ActEnabled(limit, f, a) && Doomed(limit, f, k)
    ensures Doomed(limit, ActStep(limit, f, a), k)
    ensures ActStep(limit, f, a).world.store.leases[k] == f.world.store.leases[k]
  {
    if a.SweepBy? { DoomedSwept(limit, f, a, k); } else { UnheldStays(limit, f, a, k); }
    ActKeeps(limit, f, a);
    assert JobEvolves(f.world, ActStep(limit, f, a).world, k);
    UnheldForGood(limit, f, a, k);
  }

  lemma SweepOneLeavesUnfailable(s: Store, last: string, maxAttempts: nat, now: nat, id: string)
    requires Unfailable(maxAttempts, s, id)
    ensures var s' := SweepOne(s, last, maxAttempts, now).store;
            Lookup(s'.states, id) == Some(s.states[id]) && Lookup(s'.payloads, id) == Some(s.payloads[id])
  {
  }

  lemma {:induction false} SweepLeavesUnfailable(s: Store, ids: seq<string>, maxAttempts: nat, now: nat, id: string)
    requires Unfailable(maxAttempts, s, id)
    ensures var s' := Sweep(s, ids, maxAttempts, now).store;
            Lookup(s'.states, id) == Some(s.states[id]) && Lookup(s'.payloads, id) == Some(s.payloads[id])
    decreases |ids|
  {
    if ids != [] {
      SweepLeavesUnfailable(s, ids[..|ids| - 1], maxAttempts, now, id);
      SweepOneLeavesUnfailable(Sweep(s, ids[..|ids| - 1], maxAttempts, now).store, ids[|ids| - 1], maxAttempts, now, id);
    }
  }

  /** What precedes an entry of a batch comes before it in the batch. */
  lemma ComesBefore(leases: map<string, nat>, now: nat, batch: nat, ids: seq<string>, k: string, id: string, i: nat)
    returns (j: nat)
    requires IsBatch(leases, now, batch, ids) && i < |ids| && ids[i] == id
    requires Expired(leases, k, now) && k != id && Precedes(leases, k, id)
    ensures j < i && ids[j] == k
  {
    NameLeTotal(k, id);
    assert k in ids;
    j :| 0 <= j < |ids| && ids[j] == k;
  }

  /** A sweep does not get past a job at which it raises. */
  lemma NotServed(w: World, ids: seq<string>, batch: nat, maxAttempts: nat, k: string, id: string)
    requires IsBatch(w.store.leases, w.Now(), batch, ids) && Jams(w, k, maxAttempts)
    requires k != id && Expired(w.store.leases, id, w.Now()) && Precedes(w.store.leases, k, id)
    ensures id !in ids[..Served(w.store, ids, maxAttempts)]
  {
    var n := Served(w.store, ids, maxAttempts);
    forall i | 0 <= i < n ensures ids[..n][i] != id {
      if ids[i] == id {
        var j := ComesBefore(w.store.leases, w.Now(), batch, ids, k, id, i);
      }
    }
  }

  /** What a sweep does not get to, it leaves. */
  lemma UnservedStays(limit: nat, w: World, ids: seq<string>, maxAttempts: nat, id: string)
    requires Consistent(limit, w) && 1 <= maxAttempts <= limit && Sweepable(w, ids)
    requires id !in ids[..Served(w.store, ids, maxAttempts)]
    ensures var s' := Sweep(w.store, ids, maxAttempts, w.Now()).store;
            Lookup(s'.leases, id) == Lookup(w.store.leases, id) && Lookup(s'.states, id) == Lookup(w.store.states, id)
  {
    var n := Served(w.store, ids, maxAttempts);
    SweepStopsAtServed(limit, w, ids, maxAttempts);
    assert forall i :: 0 <= i < n ==> ids[..n][i] == ids[i];
    SweepKeeps(limit, w, ids[..n], maxAttempts);
  }

  lemma SweepStopsBefore(limit: nat, w: World, ids: seq<string>, batch: nat, maxAttempts: nat, k: string, id: string)
    requires 1 <= limit && Consistent(limit, w) && Enabled(limit, w, DoSweep(ids, batch, maxAttempts))
    requires Jams(w, k, maxAttempts) && k != id && Expired(w.store.leases, id, w.Now()) && Precedes(w.store.leases, k, id)
    ensures var s' := Sweep(w.store, ids, maxAttempts, w.Now()).store;
            Lookup(s'.leases, id) == Lookup(w.store.leases, id) && Lookup(s'.states, id) == Lookup(w.store.states, id)
  {
    NotServed(w, ids, batch, maxAttempts, k, id);
    UnservedStays(limit, w, ids, maxAttempts, id);
  }

  lemma BehindDoomedSwept(limit: nat, f: Fleet, a: Act, id: string, k: string)
    requires 1 <= limit && Consistent(limit, f.world) && ActEnabled(limit, f, a) && a.SweepBy?
    requires id in f.world.store.leases && k in Ahead(f.world.store.leases, id) && Doomed(limit, f, k)
    ensures var s' := ActStep(limit, f, a).world.store;
            Lookup(s'.states, id) == Lookup(f.world.store.states, id) && Lookup(s'.leases, id) == Lookup(f.world.store.leases, id)
  {
    if id in a.ids {
      assert Jams(f.world, k, limit);
      SweepStopsBefore(limit, f.world, a.ids, REQUEUE_BATCH, limit, k, id);
    } else {
      SweepSparesUnlisted(limit, f, a, id);
    }
  }

  /** An immovable claim keeps its state, and its lease unless it is one no sweep can fail. */
  lemma StuckClaimKeeps(limit: nat, f: Fleet, a: Act, id: string)
    requires 1 <= limit && Consistent(limit, f.world) && ActEnabled(limit, f, a)
    requires id in f.world.store.states && f.world.store.states[id].Claimed? && !Movable(limit, f, id)
    ensures var (s, s') := (f.world.store, ActStep(limit, f, a).world.store);
            && Lookup(s'.states, id) == Some(s.states[id])
            && (Unfailable(limit, s, id) || Lookup(s'.leases, id) == Lookup(s.leases, id))
  {
    var s := f.world.store;
    if !a.SweepBy? {
      UnheldStays(limit, f, a, id);
    } else if Unfailable(limit, s, id) {
      SweepLeavesUnfailable(s, a.ids, limit, f.world.Now(), id);
    } else if id !in s.leases {
      SweepSparesUnlisted(limit, f, a, id);
    } else {
      var k :| k in Ahead(s.leases, id) && Doomed(limit, f, k);
      BehindDoomedSwept(limit, f, a, id, k);
    }
  }

  /** An immovable claim: its state stays, and it stays immovable. */
  lemma StuckClaimStays(limit: nat, f: Fleet, a: Act, id: string)
    requires 1 <= limit && Consistent(limit, f.world) && ActEnabled(limit, f, a)
    requires id in f.world.store.states && f.world.store.states[id].Claimed? && !Movable(limit, f, id)
    ensures Lookup(ActStep(limit, f, a).world.store.states, id) == Some(f.world.store.states[id])
    ensures !Movable(limit, ActStep(limit, f, a), id)
  {
    var s, f' := f.world.store, ActStep(limit, f, a);
    StuckClaimKeeps(limit, f, a, id);
    UnheldForGood(limit, f, a, id);
    if Unfailable(limit, s, id) {
      ActKeeps(limit, f, a);
      assert JobEvolves(f.world, f'.world, id);
    } else if id in s.leases {
      var k :| k in Ahead(s.leases, id) && Doomed(limit, f, k);
      DoomedStays(limit, f, a, k);
      assert k in Ahead(f'.world.store.leases, id);
    }
  }

  lemma CountedTwice(q: seq<string>, i: nat, j: nat)
    requires i < j < |q| && q[i] == q[j]
    ensures multiset(q)[q[i]] >= 2
  {
    assert q == q[..j] + [q[j]] + q[j + 1..];
    assert q[..j][i] == q[i];
    assert q[i] in multiset(q[..j]);
  }

  /** A job is in the queue at one place. */
  lemma OnePosition(limit: nat, w: World, id: string, i: nat, j: nat)
    requires Consistent(limit, w) && i < |w.store.queue| && j < |w.store.queue|
    requires w.store.queue[i] == id == w.store.queue[j]
    ensures i == j
  {
    assert JobConsistent(limit, w, id);
    if i < j { CountedTwice(w.store.queue, i, j); }
    if j < i { CountedTwice(w.store.queue, j, i); }
  }

  lemma QueueAfter(limit: nat, f: Fleet, a: Act)
    requires 1 <= limit && Consistent(limit, f.world) && ActEnabled(limit, f, a)
    ensures !a.ClaimBy? ==> f.world.store.queue <= ActStep(limit, f, a).world.store.queue
    ensures a.ClaimBy? && f.world.store.queue != [] ==>
              ActStep(limit, f, a).world.store.queue == f.world.store.queue[1..]
  {
    if EventOf(limit, a).Some? { StepOrder(limit, f.world, EventOf(limit, a).value); }
    if a.ClaimBy? { ClaimTakesHead(limit, f.world, a.worker, a.lease, f.world.Now() + a.leaseMs); }
  }

  /** A queued job other than the head stays queued. */
  lemma QueuedStays(limit: nat, f: Fleet, a: Act, id: string, i: nat)
    requires 1 <= limit && Consistent(limit, f.world) && ActEnabled(limit, f, a)
    requires i < |f.world.store.queue| && f.world.store.queue[i] == id && (a.ClaimBy? ==> i > 0)
    ensures var s' := ActStep(limit, f, a).world.store;
            && Lookup(s'.states, id) == Some(Queued)
            && var i' := if a.ClaimBy? then i - 1 else i; i' < |s'.queue| && s'.queue[i'] == id
  {
    QueueAfter(limit, f, a);
    ActKeeps(limit, f, a);
    var f' := ActStep(limit, f, a);
    var i' := if a.ClaimBy? then i - 1 else i;
    assert f'.world.store.queue[i'] == id;
    assert JobConsistent(limit, f'.world, id);
    assert id in multiset(f'.world.store.queue);
  }

  /** No turn comes: the job is past all the claims that can be made behind the first jam. */
  lemma PastTheBudget(limit: nat, f: Fleet, id: string, i: nat) returns (k: string)
    requires i < |f.world.store.queue| && f.world.store.queue[i] == id && !TurnComes(limit, f, id)
    ensures FirstJam(limit, f.world, k) && i >= Budget(f, k)
  {
    FirstJamExists(limit, f.world);
    k :| FirstJam(limit, f.world, k);
  }

  lemma NoTurnPastBudget(limit: nat, f: Fleet, id: string, i: nat, k: string)
    requires Consistent(limit, f.world) && i < |f.world.store.queue| && f.world.store.queue[i] == id
    requires FirstJam(limit, f.world, k) && i >= Budget(f, k)
    ensures !TurnComes(limit, f, id)
  {
    assert Jams(f.world, k, limit);
    forall k', j | FirstJam(limit, f.world, k') && 0 <= j < |f.world.store.queue| && f.world.store.queue[j] == id
      ensures j >= Budget(f, k')
    {
      FirstJamUnique(limit, f.world, k, k');
      OnePosition(limit, f.world, id, i, j);
    }
  }

  lemma StuckInQueueStays(limit: nat, f: Fleet, a: Act, id: string, i: nat)
    requires 1 <= limit && Consistent(limit, f.world) && ActEnabled(limit, f, a)
    requires i < |f.world.store.queue| && f.world.store.queue[i] == id && !TurnComes(limit, f, id)
    ensures Lookup(ActStep(limit, f, a).world.store.states, id) == Some(Queued)
    ensures !TurnComes(limit, ActStep(limit, f, a), id)
  {
    var k := PastTheBudget(limit, f, id, i);
    BudgetSpent(limit, f, a, k);
    QueuedStays(limit, f, a, id, i);
    ActKeeps(limit, f, a);
    NoTurnPastBudget(limit, ActStep(limit, f, a), id, if a.ClaimBy? then i - 1 else i, k);
  }

  lemma InQueueAt(limit: nat, w: World, id: string) returns (i: nat)
    requires Consistent(limit, w) && id in w.store.states && w.store.states[id].Queued?
    ensures i < |w.store.queue| && w.store.queue[i] == id
  {
    assert JobConsistent(limit, w, id);
    assert id in multiset(w.store.queue);
    i :| 0 <= i < |w.store.queue| && w.store.queue[i] == id;
  }

  lemma StuckStays(limit: nat, f: Fleet, a: Act, id: string)
    requires 1 <= limit && Consistent(limit, f.world) && ActEnabled(limit, f, a)
    requires id in f.world.store.states && !Movable(limit, f, id)
    ensures Lookup(ActStep(limit, f, a).world.store.states, id) == Some(f.world.store.states[id])
    ensures !Movable(limit, ActStep(limit, f, a), id)
  {
    assert JobConsistent(limit, f.world, id);
    if f.world.store.states[id].Queued? {
      var i := InQueueAt(limit, f.world, id);
      StuckInQueueStays(limit, f, a, id, i);
    } else if f.world.store.states[id].Claimed? {
      StuckClaimStays(limit, f, a, id);
    } else {
      ActKeeps(limit, f, a);
      assert JobEvolves(f.world, ActStep(limit, f, a).world, id);
    }
  }

  /** An immovable job stays exactly as it is, in every continuation. */
  lemma {:induction false} StuckForever(limit: nat, f: Fleet, acts: seq<Act>, id: string)
    requires 1 <= limit && Consistent(limit, f.world) && ActsPossible(limit, f, acts)
    requires id in f.world.store.states && !Movable(limit, f, id)
    ensures Lookup(Acts(limit, f, acts).world.store.states, id) == Some(f.world.store.states[id])
    decreases |acts|
  {
    if acts != [] {
      StuckStays(limit, f, acts[0], id);
      ActKeeps(limit, f, acts[0]);
      StuckForever(limit, ActStep(limit, f, acts[0]), acts[1..], id);
    }
  }

  // ---------------------------------------------------------------- what can, does in some continuation

  lemma EndsAfter(limit: nat, f: Fleet, a: Act, id: string)
    requires ActEnabled(limit, f, a) && CanEnd(limit, ActStep(limit, f, a), id)
    ensures CanEnd(limit, f, id)
  {
    var acts :| ActsPossible(limit, ActStep(limit, f, a), acts) && Ended(Acts(limit, ActStep(limit, f, a), acts), id);
    assert ([a] + acts)[1..] == acts;
    assert ActsPossible(limit, f, [a] + acts) && Ended(Acts(limit, f, [a] + acts), id);
  }

  lemma MovesAfter(limit: nat, f: Fleet, a: Act, id: string)
    requires ActEnabled(limit, f, a) && StageOf(ActStep(limit, f, a), id) == StageOf(f, id)
    requires CanMove(limit, ActStep(limit, f, a), id)
    ensures CanMove(limit, f, id)
  {
    var f' := ActStep(limit, f, a);
    var acts :| ActsPossible(limit, f', acts) && StageOf(Acts(limit, f', acts), id) != StageOf(f', id);
    assert ([a] + acts)[1..] == acts;
    assert ActsPossible(limit, f, [a] + acts) && StageOf(Acts(limit, f, [a] + acts), id) != StageOf(f, id);
  }

  lemma MovesNow(limit: nat, f: Fleet, a: Act, id: string)
    requires ActEnabled(limit, f, a) && StageOf(ActStep(limit, f, a), id) != StageOf(f, id)
    ensures CanMove(limit, f, id)
  {
    assert [a][1..] == [];
    assert Acts(limit, f, [a]) == Acts(limit, ActStep(limit, f, a), []);
    assert ActsPossible(limit, ActStep(limit, f, a), []);
    assert ActsPossible(limit, f, [a]);
  }

  lemma EndedCanEnd(limit: nat, f: Fleet, id: string)
    requires Ended(f, id)
    ensures CanEnd(limit, f, id)
  {
    assert ActsPossible(limit, f, []) && Acts(limit, f, []) == f;
  }

  /** The call with which a holder fails its job for good. */
  function FinalCall(limit: nat, s: Store, d: Duty): Event
    requires d.Holding?
  {
    if WellFormed(s, d.id) then
      DoFinishError(d.id, d.worker, d.lease, false, limit, ResultWith(s.payloads[d.id].job, Errored("")), "")
    else DoFailInvalid(d.id, d.worker, d.lease, "")
  }

  lemma FinalCallEnds(limit: nat, f: Fleet, id: string, p: string)
    requires 1 <= limit && HeldBy(f, id, p)
    ensures var a := CallBy(p, FinalCall(limit, f.world.store, DutyOf(f, p)));
            var s' := ActStep(limit, f, a).world.store;
            && ActEnabled(limit, f, a) && Ended(ActStep(limit, f, a), id)
            && s'.leases == f.world.store.leases - {id} && ActStep(limit, f, a).duties == f.duties
            && ActStep(limit, f, a).world.nowUs == f.world.nowUs && s'.payloads == f.world.store.payloads
            && forall j :: j != id ==> Lookup(s'.states, j) == Lookup(f.world.store.states, j)
  {
  }

  /** A held job: its holder can report a final failure. */
  lemma HeldCanEnd(limit: nat, f: Fleet, id: string, p: string)
    requires 1 <= limit && HeldBy(f, id, p)
    ensures CanEnd(limit, f, id)
  {
    var a := CallBy(p, FinalCall(limit, f.world.store, DutyOf(f, p)));
    FinalCallEnds(limit, f, id, p);
    EndedCanEnd(limit, ActStep(limit, f, a), id);
    EndsAfter(limit, f, a, id);
  }

  /** The reply of ZRANGEBYSCORE exists. */
  lemma {:induction false} BatchExists(leases: map<string, nat>, now: nat, batch: nat) returns (ids: seq<string>)
    ensures IsBatch(leases, now, batch, ids)
    decreases batch
  {
    if batch == 0 {
      ids := [];
    } else {
      var init := BatchExists(leases, now, batch - 1);
      var rest := ExpiredSet(leases, now) - ToSet(init);
      if rest == {} {
        ids := init;
        forall id | Expired(leases, id, now) ensures id in ids { assert id !in rest; }
      } else {
        LeastExists(leases, rest);
        var next :| next in rest && forall j :: j in rest ==> Precedes(leases, next, j);
        ids := init + [next];
        NextBatch(leases, now, batch - 1, init, next);
      }
    }
  }

  lemma NextBatch(leases: map<string, nat>, now: nat, batch: nat, init: seq<string>, next: string)
    requires IsBatch(leases, now, batch, init) && Expired(leases, next, now) && next !in init
    requires forall j :: Expired(leases, j, now) && j !in init ==> Precedes(leases, next, j)
    ensures IsBatch(leases, now, batch + 1, init + [next])
  {
    var ids := init + [next];
    forall id | Expired(leases, id, now) && id !in ids
      ensures |ids| == batch + 1 && forall i :: 0 <= i < |ids| ==> Precedes(leases, ids[i], id)
    {
      assert id !in init && id != next;
    }
  }

  /** A process that has done nothing yet can sweep. */
  lemma FreshSweep(limit: nat, f: Fleet) returns (a: Act)
    requires 1 <= limit
    ensures a.SweepBy? && a.p !in f.duties && ActEnabled(limit, f, a)
  {
    var p := FreshName(f.duties.Keys);
    var ids := BatchExists(f.world.store.leases, f.world.Now(), REQUEUE_BATCH);
    a := SweepBy(p, ids);
  }

  // queued jobs

  /** After a claim by a process that has swept: the head is held; every other queued job is one nearer. */
  lemma NextClaim(limit: nat, f: Fleet, p: string) returns (a: Act)
    requires 1 <= limit && Consistent(limit, f.world) && DutyOf(f, p).Ready? && f.world.store.queue != []
    ensures a.ClaimBy? && a.p == p && ActEnabled(limit, f, a)
    ensures HeldBy(ActStep(limit, f, a), f.world.store.queue[0], p)
    ensures NoJam(f.world, limit) ==> NoJam(ActStep(limit, f, a).world, limit)
    ensures forall k :: FirstJam(limit, f.world, k) ==>
              k in ActStep(limit, f, a).world.store.leases
              && Ahead(ActStep(limit, f, a).world.store.leases, k) == Ahead(f.world.store.leases, k)
  {
    var w := f.world;
    var lease := FreshName(w.issued);
    a := ClaimBy(p, "worker", lease, 1);
    ClaimTakesHead(limit, w, "worker", lease, w.Now() + 1);
    var w' := ActStep(limit, f, a).world;
    var head := w.store.queue[0];
    assert JobConsistent(limit, w, head);
    assert head in multiset(w.store.queue);
    forall j ensures Jams(w', j, limit) ==> Jams(w, j, limit) {
    }
    forall k | FirstJam(limit, w, k)
      ensures k in w'.store.leases && Ahead(w'.store.leases, k) == Ahead(w.store.leases, k)
    {
    }
  }

  lemma ClaimSpendsOne(limit: nat, f: Fleet, a: Act, k: string)
    requires 1 <= limit && Consistent(limit, f.world) && ActEnabled(limit, f, a) && a.ClaimBy? && FirstJam(limit, f.world, k)
    requires k in ActStep(limit, f, a).world.store.leases
    requires Ahead(ActStep(limit, f, a).world.store.leases, k) == Ahead(f.world.store.leases, k)
    ensures FirstJam(limit, ActStep(limit, f, a).world, k) && Budget(ActStep(limit, f, a), k) == Budget(f, k) - 1
  {
    var f' := ActStep(limit, f, a);
    FirstJamStaysByAct(limit, f, a, k);
    ReadyAfter(limit, f, a);
    assert ReadySet(f) == ReadySet(f') + {a.p};
  }

  /** A queued job whose turn comes, at place `i`: one claim takes it, or brings it one nearer. */
  lemma ClaimNearer(limit: nat, f: Fleet, id: string, i: nat, p: string) returns (a: Act)
    requires 1 <= limit && Consistent(limit, f.world) && i < |f.world.store.queue| && f.world.store.queue[i] == id
    requires TurnComes(limit, f, id) && DutyOf(f, p).Ready?
    ensures a.ClaimBy? && ActEnabled(limit, f, a) && Consistent(limit, ActStep(limit, f, a).world)
    ensures i == 0 ==> HeldBy(ActStep(limit, f, a), id, p)
    ensures i > 0 ==> var f' := ActStep(limit, f, a);
                      i - 1 < |f'.world.store.queue| && f'.world.store.queue[i - 1] == id && TurnComes(limit, f', id)
  {
    a := NextClaim(limit, f, p);
    ActKeeps(limit, f, a);
    var f' := ActStep(limit, f, a);
    if i > 0 {
      QueuedStays(limit, f, a, id, i);
      if !NoJam(f.world, limit) {
        var k, j :| FirstJam(limit, f.world, k) && 0 <= j < |f.world.store.queue| && f.world.store.queue[j] == id && j < Budget(f, k);
        OnePosition(limit, f.world, id, i, j);
        ClaimSpendsOne(limit, f, a, k);
        assert i - 1 < Budget(f', k);
      }
    }
  }

  lemma OneBatchLess(n: nat)
    requires n >= REQUEUE_BATCH
    ensures (n - REQUEUE_BATCH) / REQUEUE_BATCH + 1 == n / REQUEUE_BATCH
  {
  }

  /** If no process has swept, one can, and the turn still comes. */
  lemma SweepFirst(limit: nat, f: Fleet, id: string, i: nat) returns (a: Act)
    requires 1 <= limit && Consistent(limit, f.world) && i < |f.world.store.queue| && f.world.store.queue[i] == id
    requires TurnComes(limit, f, id) && (NoJam(f.world, limit) || ReadySet(f) == {})
    ensures a.SweepBy? && ActEnabled(limit, f, a) && Consistent(limit, ActStep(limit, f, a).world)
    ensures var f' := ActStep(limit, f, a);
            && DutyOf(f', a.p).Ready? && TurnComes(limit, f', id)
            && i < |f'.world.store.queue| && f'.world.store.queue[i] == id
  {
    a := FreshSweep(limit, f);
    ActKeeps(limit, f, a);
    QueuedStays(limit, f, a, id, i);
    var f' := ActStep(limit, f, a);
    if NoJam(f.world, limit) {
      NoJamNoRaise(limit, f.world, a.ids);
      SweepMakesNoJam(limit, f.world, DoSweep(a.ids, REQUEUE_BATCH, limit));
    } else {
      var k, j :| FirstJam(limit, f.world, k) && 0 <= j < |f.world.store.queue| && f.world.store.queue[j] == id && j < Budget(f, k);
      OnePosition(limit, f.world, id, i, j);
      EnoughAheadNoRaise(limit, f.world, a.ids, k);
      FirstJamStaysByAct(limit, f, a, k);
      ReadyAfter(limit, f, a);
      CleanSweepTakesBatch(limit, f.world, a.ids, k);
      OneBatchLess(|Ahead(f.world.store.leases, k)|);
      assert ReadySet(f') == {a.p};
      assert i < Budget(f', k);
    }
  }

  lemma NoJamNoRaise(limit: nat, w: World, ids: seq<string>)
    requires 1 <= limit && Consistent(limit, w) && Enabled(limit, w, DoSweep(ids, REQUEUE_BATCH, limit)) && NoJam(w, limit)
    ensures !Sweep(w.store, ids, limit, w.Now()).raised
  {
    SweepStopsAtServed(limit, w, ids, limit);
    var n := Served(w.store, ids, limit);
    assert n < |ids| ==> Jams(w, ids[n], limit);
  }

  /** With a full batch in front of the first jam, a sweep does not get to it. */
  lemma EnoughAheadNoRaise(limit: nat, w: World, ids: seq<string>, k: string)
    requires 1 <= limit && Consistent(limit, w) && Enabled(limit, w, DoSweep(ids, REQUEUE_BATCH, limit))
    requires FirstJam(limit, w, k) && |Ahead(w.store.leases, k)| >= REQUEUE_BATCH
    ensures !Sweep(w.store, ids, limit, w.Now()).raised
  {
    SweepStopsAtServed(limit, w, ids, limit);
    if k in ids {
      var i :| 0 <= i < |ids| && ids[i] == k;
      forall j | j in Ahead(w.store.leases, k) ensures j in ToSet(ids[..i]) {
        var n := ComesBefore(w.store.leases, w.Now(), REQUEUE_BATCH, ids, j, k, i);
        assert ids[..i][n] == j;
      }
      ToSetSize(ids[..i]);
      SubsetSize(Ahead(w.store.leases, k), ToSet(ids[..i]));
      assert false;
    } else {
      BatchBefore(w, ids, REQUEUE_BATCH, k);
      assert forall m :: 0 <= m < |ids| ==> ids[m] in ToSet(ids);
    }
  }

  lemma {:induction false} QueuedCanEnd(limit: nat, f: Fleet, id: string, i: nat)
    requires 1 <= limit && Consistent(limit, f.world) && i < |f.world.store.queue| && f.world.store.queue[i] == id
    requires TurnComes(limit, f, id)
    ensures CanEnd(limit, f, id)
    decreases i, if ReadySet(f) == {} then 1 else 0
  {
    if ReadySet(f) == {} {
      var a := SweepFirst(limit, f, id, i);
      assert a.p in ReadySet(ActStep(limit, f, a));
      QueuedCanEnd(limit, ActStep(limit, f, a), id, i);
      EndsAfter(limit, f, a, id);
    } else {
      var p :| p in ReadySet(f);
      var a := ClaimNearer(limit, f, id, i, p);
      if i == 0 {
        HeldCanEnd(limit, ActStep(limit, f, a), id, p);
      } else {
        QueuedCanEnd(limit, ActStep(limit, f, a), id, i - 1);
      }
      EndsAfter(limit, f, a, id);
    }
  }

  /** Ending a job that has not ended moves it. */
  lemma EndingMoves(limit: nat, f: Fleet, id: string)
    requires id in f.world.store.states && !f.world.store.states[id].Terminal() && CanEnd(limit, f, id)
    ensures CanMove(limit, f, id)
  {
    var acts :| ActsPossible(limit, f, acts) && Ended(Acts(limit, f, acts), id);
    assert StageOf(Acts(limit, f, acts), id) != StageOf(f, id);
  }

  // expired claims

  lemma LastResolved(limit: nat, w: World, id: string)
    requires Consistent(limit, w) && id in w.store.states && w.store.states[id].Claimed?
    requires w.store.states[id].leaseExpiresMs <= w.Now() && !Unfailable(limit, w.store, id)
    ensures var s' := SweepOne(w.store, id, limit, w.Now()).store;
            id in s'.states && (s'.states[id].Queued? || s'.states[id].Failed?)
  {
    assert JobConsistent(limit, w, id);
  }

  predicate ResolvedIn(s: Store, id: string) { id in s.states && (s.states[id].Queued? || s.states[id].Failed?) }

  lemma SweepOneKeepsResolved(s: Store, last: string, maxAttempts: nat, now: nat, id: string)
    requires ResolvedIn(s, id)
    ensures ResolvedIn(SweepOne(s, last, maxAttempts, now).store, id)
  {
  }

  /** A sweep that does not raise resolves every job of its batch that it can. */
  lemma {:induction false} SweepResolves(limit: nat, w: World, ids: seq<string>, id: string)
    requires 1 <= limit && Consistent(limit, w) && Sweepable(w, ids) && id in ids
    requires !Sweep(w.store, ids, limit, w.Now()).raised
    requires id in w.store.states && w.store.states[id].Claimed? && !Unfailable(limit, w.store, id)
    ensures ResolvedIn(Sweep(w.store, ids, limit, w.Now()).store, id)
    decreases |ids|
  {
    var init, last := ids[..|ids| - 1], ids[|ids| - 1];
    SweepReachesLast(limit, w, ids, limit);
    var mid := w.(store := Sweep(w.store, init, limit, w.Now()).store);
    if id == last {
      SweepKeeps(limit, w, init, limit);
      assert last !in init;
      assert Lookup(mid.store.states, id) == Lookup(w.store.states, id);
      assert JobConsistent(limit, w, id) && JobConsistent(limit, mid, id);
      assert JobEvolves(w, mid, id);
      LastResolved(limit, mid, id);
    } else {
      assert id in init;
      SweepResolves(limit, w, init, id);
      SweepOneKeepsResolved(mid.store, last, limit, w.Now(), id);
    }
  }

  lemma ServedPast(limit: nat, w: World, ids: seq<string>, i: nat)
    requires IsBatch(w.store.leases, w.Now(), REQUEUE_BATCH, ids) && i < |ids| && ClearBefore(limit, w, ids[i])
    requires !RaisesIn(w.store, ids[i], limit)
    ensures Served(w.store, ids, limit) > i
  {
    forall j | 0 <= j <= i ensures !RaisesIn(w.store, ids[j], limit) {
      if j < i { assert ids[j] in Ahead(w.store.leases, ids[i]); }
    }
  }

  /** A batch whose entries up to this job do not raise resolves it. */
  lemma BatchResolves(limit: nat, w: World, ids: seq<string>, id: string)
    requires 1 <= limit && Consistent(limit, w) && Enabled(limit, w, DoSweep(ids, REQUEUE_BATCH, limit)) && id in ids
    requires id in w.store.states && w.store.states[id].Claimed? && id in w.store.leases
    requires !Unfailable(limit, w.store, id) && ClearBefore(limit, w, id)
    ensures ResolvedIn(Sweep(w.store, ids, limit, w.Now()).store, id)
  {
    var n := Served(w.store, ids, limit);
    var i :| 0 <= i < |ids| && ids[i] == id;
    ServedPast(limit, w, ids, i);
    SweepStopsAtServed(limit, w, ids, limit);
    assert forall j :: 0 <= j < n ==> ids[..n][j] == ids[j];
    assert ids[..n][i] == id;
    SweepResolves(limit, w, ids[..n], id);
  }

  /** A batch taken from before a job removes just its entries. */
  lemma BatchRemoves(limit: nat, w: World, ids: seq<string>, id: string)
    requires 1 <= limit && Consistent(limit, w) && Enabled(limit, w, DoSweep(ids, REQUEUE_BATCH, limit)) && id !in ids
    requires Expired(w.store.leases, id, w.Now()) && ClearBefore(limit, w, id)
    ensures var s' := Sweep(w.store, ids, limit, w.Now()).store;
            && s'.leases == w.store.leases - ToSet(ids) && s'.payloads == w.store.payloads
            && Lookup(s'.states, id) == Lookup(w.store.states, id)
            && ToSet(ids) <= Ahead(w.store.leases, id) && ToSet(ids) != {}
  {
    BatchBefore(w, ids, REQUEUE_BATCH, id);
    SweepStopsAtServed(limit, w, ids, limit);
    assert forall m :: 0 <= m < |ids| ==> ids[m] in ToSet(ids);
    SweepAccounts(limit, w, ids, limit);
    SweepKeeps(limit, w, ids, limit);
    SweptClaimWasClaim(w.store, ids, limit, w.Now(), id);
  }

  lemma AheadWithout(leases: map<string, nat>, gone: set<string>, id: string)
    requires id in leases && gone <= Ahead(leases, id)
    ensures id in leases - gone && Ahead(leases - gone, id) == Ahead(leases, id) - gone
  {
  }

  /** A batch that does not come to the job yet removes some of the leases in front, and changes nothing else
      that matters to it. */
  lemma BatchApproaches(limit: nat, f: Fleet, a: Act, id: string)
    requires 1 <= limit && Consistent(limit, f.world) && a.SweepBy? && ActEnabled(limit, f, a) && id !in a.ids
    requires id in f.world.store.states && f.world.store.states[id].Claimed? && Expired(f.world.store.leases, id, f.world.Now())
    requires ClearBefore(limit, f.world, id)
    ensures var w' := ActStep(limit, f, a).world;
            && Lookup(w'.store.states, id) == Lookup(f.world.store.states, id)
            && w'.store.payloads == f.world.store.payloads
            && Expired(w'.store.leases, id, w'.Now())
            && Ahead(w'.store.leases, id) < Ahead(f.world.store.leases, id) && ClearBefore(limit, w', id)
  {
    var w, ids := f.world, a.ids;
    var w' := ActStep(limit, f, a).world;
    BatchRemoves(limit, w, ids, id);
    AheadWithout(w.store.leases, ToSet(ids), id);
    forall j | j in Ahead(w'.store.leases, id) ensures !RaisesIn(w'.store, j, limit) {
      SweptClaimWasClaim(w.store, ids, limit, w.Now(), j);
    }
  }

  /** An expired claim that can be resolved, with nothing in front that raises: sweeps get to it. Without a jam
      anywhere it can also be brought to its end. */
  lemma {:induction false} ExpiredMoves(limit: nat, f: Fleet, id: string)
    requires 1 <= limit && Consistent(limit, f.world)
    requires id in f.world.store.states && f.world.store.states[id].Claimed? && Expired(f.world.store.leases, id, f.world.Now())
    requires !Unfailable(limit, f.world.store, id) && ClearBefore(limit, f.world, id)
    ensures CanMove(limit, f, id) && (NoJam(f.world, limit) ==> CanEnd(limit, f, id))
    decreases Ahead(f.world.store.leases, id)
  {
    var a := FreshSweep(limit, f);
    var f' := ActStep(limit, f, a);
    ActKeeps(limit, f, a);
    if NoJam(f.world, limit) { SweepMakesNoJam(limit, f.world, DoSweep(a.ids, REQUEUE_BATCH, limit)); }
    if id in a.ids {
      BatchResolves(limit, f.world, a.ids, id);
      MovesNow(limit, f, a, id);
      if NoJam(f.world, limit) {
        ResolvedCanEnd(limit, f', id);
        EndsAfter(limit, f, a, id);
      }
    } else {
      BatchApproaches(limit, f, a, id);
      ExpiredMoves(limit, f', id);
      MovesAfter(limit, f, a, id);
      if NoJam(f.world, limit) { EndsAfter(limit, f, a, id); }
    }
  }

  lemma ResolvedCanEnd(limit: nat, f: Fleet, id: string)
    requires 1 <= limit && Consistent(limit, f.world) && NoJam(f.world, limit) && ResolvedIn(f.world.store, id)
    ensures CanEnd(limit, f, id)
  {
    if f.world.store.states[id].Queued? {
      var i := InQueueAt(limit, f.world, id);
      QueuedCanEnd(limit, f, id, i);
    } else {
      EndedCanEnd(limit, f, id);
    }
  }

  // live claims that nobody holds

  /** The leases before this one at which a sweep would raise. */
  function RaisingAhead(limit: nat, s: Store, id: string): set<string>
    requires id in s.leases
  {
    set j | j in Ahead(s.leases, id) && RaisesIn(s, j, limit)
  }

  /** Every one of them is held, so its holder can fail it as malformed. */
  lemma OneLessRaising(limit: nat, f: Fleet, id: string, k: string) returns (a: Act)
    requires 1 <= limit && Consistent(limit, f.world) && id in f.world.store.leases && !BehindDoomed(limit, f, id)
    requires k in RaisingAhead(limit, f.world.store, id)
    ensures ActEnabled(limit, f, a)
    ensures var f' := ActStep(limit, f, a);
            && id in f'.world.store.leases && f'.world.nowUs == f.world.nowUs
            && f'.world.store.leases[id] == f.world.store.leases[id]
            && Lookup(f'.world.store.states, id) == Lookup(f.world.store.states, id)
            && f'.world.store.payloads == f.world.store.payloads
            && RaisingAhead(limit, f'.world.store, id) < RaisingAhead(limit, f.world.store, id)
            && !BehindDoomed(limit, f', id)
  {
    assert !Doomed(limit, f, k);
    var p :| HeldBy(f, k, p);
    a := CallBy(p, FinalCall(limit, f.world.store, DutyOf(f, p)));
    FinalCallEnds(limit, f, k, p);
    var f' := ActStep(limit, f, a);
    assert Ahead(f'.world.store.leases, id) == Ahead(f.world.store.leases, id) - {k};
    forall j | j in Ahead(f'.world.store.leases, id) ensures !Doomed(limit, f', j) {
      assert !Doomed(limit, f, j);
      if RaisesIn(f.world.store, j, limit) {
        var q :| HeldBy(f, j, q);
        assert HeldBy(f', j, q);
      }
    }
    assert k !in RaisingAhead(limit, f'.world.store, id);
  }

  lemma {:induction false} UnheldMoves(limit: nat, f: Fleet, id: string)
    requires 1 <= limit && Consistent(limit, f.world)
    requires id in f.world.store.states && f.world.store.states[id].Claimed? && id in f.world.store.leases
    requires !Unfailable(limit, f.world.store, id) && !BehindDoomed(limit, f, id)
    ensures CanMove(limit, f, id)
    decreases RaisingAhead(limit, f.world.store, id)
  {
    if RaisingAhead(limit, f.world.store, id) == {} {
      ClearedMoves(limit, f, id);
    } else {
      var k :| k in RaisingAhead(limit, f.world.store, id);
      var a := OneLessRaising(limit, f, id, k);
      ActKeeps(limit, f, a);
      UnheldMoves(limit, ActStep(limit, f, a), id);
      MovesAfter(limit, f, a, id);
    }
  }

  /** How long until the clock shows `ms`. */
  lemma ReachesMs(nowUs: nat, ms: nat) returns (us: nat)
    ensures ms <= NowMs(nowUs + us)
  {
    us := ms * 1000;
    NowMonotone(ms * 1000, nowUs + us);
    assert NowMs(ms * 1000) == ms;
  }

  lemma ClearedMoves(limit: nat, f: Fleet, id: string)
    requires 1 <= limit && Consistent(limit, f.world)
    requires id in f.world.store.states && f.world.store.states[id].Claimed? && id in f.world.store.leases
    requires !Unfailable(limit, f.world.store, id) && RaisingAhead(limit, f.world.store, id) == {}
    ensures CanMove(limit, f, id)
  {
    var us := ReachesMs(f.world.nowUs, f.world.store.leases[id]);
    var a := Elapse(us);
    var f' := ActStep(limit, f, a);
    ActKeeps(limit, f, a);
    forall j | j in Ahead(f'.world.store.leases, id) ensures !RaisesIn(f'.world.store, j, limit) {
      assert j !in RaisingAhead(limit, f.world.store, id);
    }
    ExpiredMoves(limit, f', id);
    MovesAfter(limit, f, a, id);
  }

  // ---------------------------------------------------------------- exactly when

  lemma MovableCanMove(limit: nat, f: Fleet, id: string)
    requires 1 <= limit && Consistent(limit, f.world) && Movable(limit, f, id)
    ensures CanMove(limit, f, id)
  {
    if f.world.store.states[id].Queued? {
      var i := InQueueAt(limit, f.world, id);
      QueuedCanEnd(limit, f, id, i);
      EndingMoves(limit, f, id);
    } else if Held(f, id) {
      var p :| HeldBy(f, id, p);
      HeldCanEnd(limit, f, id, p);
      EndingMoves(limit, f, id);
    } else {
      UnheldMoves(limit, f, id);
    }
  }

  /** Some continuation moves a job if and only if it is queued and its turn comes, or held, or claimed with a
      lease that a sweep will get to and can resolve. */
  lemma MovableExactlyWhen(limit: nat, f: Fleet, id: string)
    requires 1 <= limit && Consistent(limit, f.world) && id in f.world.store.states
    ensures CanMove(limit, f, id) <==> Movable(limit, f, id)
  {
    if Movable(limit, f, id) {
      MovableCanMove(limit, f, id);
    } else {
      forall acts | ActsPossible(limit, f, acts) ensures StageOf(Acts(limit, f, acts), id) == StageOf(f, id) {
        StuckForever(limit, f, acts, id);
      }
    }
  }

  /** A queued job can be brought to its end if and only if its turn comes: no sweep raises, or its index is
      below the number of processes that have swept plus that of full batches before the first jam. */
  lemma QueuedEndsExactlyWhen(limit: nat, f: Fleet, id: string)
    requires 1 <= limit && Consistent(limit, f.world) && id in f.world.store.states && f.world.store.states[id].Queued?
    ensures CanEnd(limit, f, id) <==> TurnComes(limit, f, id)
  {
    if TurnComes(limit, f, id) {
      var i := InQueueAt(limit, f.world, id);
      QueuedCanEnd(limit, f, id, i);
    } else {
      forall acts | ActsPossible(limit, f, acts) ensures !Ended(Acts(limit, f, acts), id) {
        StuckForever(limit, f, acts, id);
      }
    }
  }

  /** While no sweep raises, every job that can move can be brought to its end, unless it is claimed, unheld
      and not yet run out. */
  lemma EndsUnlessJammed(limit: nat, f: Fleet, id: string)
    requires 1 <= limit && Consistent(limit, f.world) && NoJam(f.world, limit) && Movable(limit, f, id)
    requires f.world.store.states[id].Claimed? ==> Held(f, id) || Expired(f.world.store.leases, id, f.world.Now())
    ensures CanEnd(limit, f, id)
  {
    assert JobConsistent(limit, f.world, id);
    if f.world.store.states[id].Queued? {
      QueuedEndsExactlyWhen(limit, f, id);
    } else if Held(f, id) {
      var p :| HeldBy(f, id, p);
      HeldCanEnd(limit, f, id, p);
    } else {
      forall j | j in Ahead(f.world.store.leases, id) ensures !RaisesIn(f.world.store, j, limit) {
        assert !Jams(f.world, j, limit);
      }
      ExpiredMoves(limit, f, id);
    }
  }

  // ---------------------------------------------------------------- the standstill happens

  /** One job, never finished, `c` times claimed, and no process between its sweep and its claim. */
  ghost predicate Lone(limit: nat, f: Fleet, text: string, c: nat) {
    && FleetReachable(limit, f) && Consistent(limit, f.world)
    && f.duties.Keys <= {"p"} && DutyOf(f, "p").Idle?
    && f.world.store.queue == ["job"] && f.world.store.leases == map[]
    && f.world.store.payloads == map["job" := Scalar(text)] && Counter(f.world.store, "job") == c
  }

  /** ... claimed once more, and left to run out by a process that has crashed. */
  ghost predicate LoneExpired(limit: nat, f: Fleet, text: string, c: nat) {
    && FleetReachable(limit, f) && Consistent(limit, f.world)
    && f.duties.Keys <= {"p"} && DutyOf(f, "p").Idle?
    && f.world.store.queue == [] && f.world.store.leases.Keys == {"job"}
    && f.world.store.payloads == map["job" := Scalar(text)]
    && Expired(f.world.store.leases, "job", f.world.Now())
    && "job" in f.world.store.states && f.world.store.states["job"].Claimed? && f.world.store.states["job"].attempt == c
  }

  lemma FirstProduced(text: string)
    ensures Apply(Start, Submit("job", Scalar(text)))
         == World(Store(["job"], [], map[], map[], map["job" := Scalar(text)], map["job" := Queued], map[]), 0, {})
  {
  }

  lemma LoneBegins(limit: nat, text: string) returns (f: Fleet)
    requires 1 <= limit
    ensures Lone(limit, f, text, 0)
  {
    var a := Produce("job", Scalar(text));
    NoFleetReachable(limit);
    FleetComesFurther(limit, NoFleet, a);
    StartConsistent(limit);
    ActKeeps(limit, NoFleet, a);
    FirstProduced(text);
    f := Fleet(Apply(Start, Submit("job", Scalar(text))), map[]);
    assert ActStep(limit, NoFleet, a) == f;
  }

  /** With no lease at all a sweep does nothing but make its process ready. */
  lemma LoneReady(limit: nat, f: Fleet, text: string, c: nat) returns (f': Fleet)
    requires 1 <= limit && Lone(limit, f, text, c)
    ensures FleetReachable(limit, f') && f'.world == f.world && f'.duties.Keys == {"p"} && DutyOf(f', "p").Ready?
  {
    var a := SweepBy("p", []);
    FleetComesFurther(limit, f, a);
    f' := ActStep(limit, f, a);
  }

  lemma LoneTaken(limit: nat, w: World, lease: string)
    requires Consistent(limit, w) && w.store.queue == ["job"] && w.store.leases == map[] && lease !in w.issued
    ensures var (s', reply) := Claim(w.store, "worker", lease, w.Now() + 1);
            && reply.Some? && s'.queue == [] && s'.leases == map["job" := w.Now() + 1] && s'.payloads == w.store.payloads
            && Lookup(s'.states, "job") == Some(Claimed("worker", lease, w.Now() + 1, Counter(w.store, "job") + 1))
  {
    ClaimTakesHead(limit, w, "worker", lease, w.Now() + 1);
  }

  /** Sweep, claim, crash, wait. */
  lemma LoneClaimed(limit: nat, f: Fleet, text: string, c: nat) returns (f': Fleet)
    requires 1 <= limit && Lone(limit, f, text, c)
    ensures LoneExpired(limit, f', text, c + 1)
  {
    var f1 := LoneReady(limit, f, text, c);
    var lease := FreshName(f1.world.issued);
    var b := ClaimBy("p", "worker", lease, 1);
    FleetComesFurther(limit, f1, b);
    ActKeeps(limit, f1, b);
    LoneHolds(limit, f1, lease, c);
    f' := LoneCrashes(limit, ActStep(limit, f1, b), text, c + 1);
  }

  lemma LoneHolds(limit: nat, f: Fleet, lease: string, c: nat)
    requires Consistent(limit, f.world) && f.world.store.queue == ["job"] && f.world.store.leases == map[]
    requires lease !in f.world.issued && Counter(f.world.store, "job") == c && f.duties.Keys == {"p"}
    ensures var f' := ActStep(limit, f, ClaimBy("p", "worker", lease, 1));
            && f'.world.store.queue == [] && f'.world.store.leases == map["job" := f'.world.Now() + 1]
            && f'.world.store.payloads == f.world.store.payloads && f'.duties.Keys == {"p"}
            && "job" in f'.world.store.states && f'.world.store.states["job"].Claimed?
            && f'.world.store.states["job"].attempt == c + 1
  {
    LoneTaken(limit, f.world, lease);
  }

  lemma LoneCrashes(limit: nat, f: Fleet, text: string, c: nat) returns (f': Fleet)
    requires 1 <= limit && FleetReachable(limit, f) && Consistent(limit, f.world) && f.duties.Keys == {"p"}
    requires f.world.store.queue == [] && f.world.store.leases == map["job" := f.world.Now() + 1]
    requires f.world.store.payloads == map["job" := Scalar(text)]
    requires "job" in f.world.store.states && f.world.store.states["job"].Claimed? && f.world.store.states["job"].attempt == c
    ensures LoneExpired(limit, f', text, c)
  {
    FleetComesFurther(limit, f, Drop("p"));
    var g := ActStep(limit, f, Drop("p"));
    FleetComesFurther(limit, g, Elapse(1000));
    ActKeeps(limit, g, Elapse(1000));
    f' := ActStep(limit, g, Elapse(1000));
    OneMillisecond(g.world.nowUs);
  }

  lemma OneMillisecond(nowUs: nat)
    ensures NowMs(nowUs + 1000) == NowMs(nowUs) + 1
  {
  }

  /** What the sweep does to it with attempts left. */
  lemma LoneSwept(limit: nat, w: World, text: string, c: nat)
    requires Consistent(limit, w) && c < limit && w.store.queue == [] && w.store.leases.Keys == {"job"}
    requires w.store.payloads == map["job" := Scalar(text)] && Expired(w.store.leases, "job", w.Now())
    requires "job" in w.store.states && w.store.states["job"].Claimed? && w.store.states["job"].attempt == c
    ensures Enabled(limit, w, DoSweep(["job"], REQUEUE_BATCH, limit))
    ensures var s' := Apply(w, DoSweep(["job"], REQUEUE_BATCH, limit)).store;
            s'.queue == ["job"] && s'.leases == map[] && s'.payloads == w.store.payloads && Counter(s', "job") == c
  {
    assert JobConsistent(limit, w, "job");
    SweepOfOne(w.store, "job", limit, w.Now());
    assert w.store.leases - {"job"} == map[];
  }

  /** With attempts left, the sweep queues it again. */
  lemma LoneRequeued(limit: nat, f: Fleet, text: string, c: nat) returns (f': Fleet)
    requires 1 <= limit && LoneExpired(limit, f, text, c) && c < limit
    ensures Lone(limit, f', text, c)
  {
    var a := SweepBy("p", ["job"]);
    LoneSwept(limit, f.world, text, c);
    FleetComesFurther(limit, f, a);
    ActKeeps(limit, f, a);
    var f1 := ActStep(limit, f, a);
    FleetComesFurther(limit, f1, Drop("p"));
    f' := ActStep(limit, f1, Drop("p"));
  }

  lemma {:induction false} LoneReached(limit: nat, text: string, c: nat) returns (f: Fleet)
    requires 1 <= limit && c < limit
    ensures Lone(limit, f, text, c)
    decreases c
  {
    if c == 0 {
      f := LoneBegins(limit, text);
    } else {
      var g := LoneReached(limit, text, c - 1);
      var h := LoneClaimed(limit, g, text, c - 1);
      f := LoneRequeued(limit, h, text, c);
    }
  }

  /** A fleet at a standstill: a jam in front, and nobody between sweep and claim. */
  ghost predicate AtStandstill(limit: nat, f: Fleet, k: string) {
    FleetReachable(limit, f) && Consistent(limit, f.world) && JamsFront(f.world, k, limit) && ReadySet(f) == {}
  }

  /** For every attempt limit such a jam is reachable, by as many claims whose worker disappears. */
  lemma JamIsReachable(limit: nat, text: string)
    requires 1 <= limit
    ensures exists f :: AtStandstill(limit, f, "job") && Reachable(limit, f.world)
                        && Lookup(f.world.store.payloads, "job") == Some(Scalar(text))
  {
    var f := StandstillReached(limit, text);
    assert AtStandstill(limit, f, "job") && Reachable(limit, f.world);
  }

  lemma StandstillReached(limit: nat, text: string) returns (f: Fleet)
    requires 1 <= limit
    ensures AtStandstill(limit, f, "job") && f.world.store.payloads == map["job" := Scalar(text)]
    ensures Reachable(limit, f.world)
  {
    var g := LoneReached(limit, text, limit - 1);
    f := LoneClaimed(limit, g, text, limit - 1);
    FleetWorldReachable(limit, f);
  }

  /** And then a job can be submitted that stays queued for ever, whatever the workers do. */
  lemma QueueCanStandStill(limit: nat, text: string, payload: Payload)
    requires 1 <= limit
    ensures exists f :: && AtStandstill(limit, f, "job") && Lookup(f.world.store.states, "next") == Some(Queued)
                        && forall acts :: ActsPossible(limit, f, acts) ==>
                             Lookup(Acts(limit, f, acts).world.store.states, "next") == Some(Queued)
  {
    var g := StandstillReached(limit, text);
    var a := Produce("next", payload);
    assert JobConsistent(limit, g.world, "next");
    FleetComesFurther(limit, g, a);
    ActKeeps(limit, g, a);
    var f := ActStep(limit, g, a);
    FrontJamStep(limit, g.world, Submit("next", payload), "job");
    assert AtStandstill(limit, f, "job");
    NoTurnAtStandstill(limit, f, "job", "next");
    forall acts | ActsPossible(limit, f, acts)
      ensures Lookup(Acts(limit, f, acts).world.store.states, "next") == Some(Queued)
    {
      StuckForever(limit, f, acts, "next");
    }
  }

  /** At a standstill no turn comes. */
  lemma NoTurnAtStandstill(limit: nat, f: Fleet, k: string, id: string)
    requires AtStandstill(limit, f, k)
    ensures !TurnComes(limit, f, id)
  {
    var ahead := Ahead(f.world.store.leases, k);
    forall j ensures j !in ahead {
      if j in ahead { NameLeTotal(j, k); }
    }
    assert ahead == {};
    assert FirstJam(limit, f.world, k);
    forall k' | FirstJam(limit, f.world, k') ensures Budget(f, k') == 0 {
      FirstJamUnique(limit, f.world, k, k');
    }
  }
}
