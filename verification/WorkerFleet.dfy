/** The workers as `run` makes them behave towards the queue: each sweeps, claims only after a sweep of its
    own that did not fail, calls only under its own claim, and then begins again. All share one attempt
    limit. */
module WorkerFleet {
  import opened Wrappers
  import opened ProofProtocol
  import opened LeaseQueue
  import opened LeaseQueueInvariant
  import opened LeaseQueueRuns
  import opened ExpirySweep

  /** Where a process is in its loop: about to sweep, about to claim, or at work on a claim. */
  datatype Duty = Idle | Ready | Holding(id: string, worker: string, lease: string)

  /** The world, and every process that has done anything. */
  datatype Fleet = Fleet(world: World, duties: map<string, Duty>)

  function DutyOf(f: Fleet, p: string): Duty { if p in f.duties then f.duties[p] else Idle }

  datatype Act =
    | Elapse(us: nat)
    | Produce(id: string, payload: Payload)
    | SweepBy(p: string, ids: seq<string>)
    | ClaimBy(p: string, worker: string, lease: string, leaseMs: nat)
    | CallBy(p: string, call: Event)
    | Drop(p: string)                        // a call resolved or given up, a claim's reply lost, a crash

  function EventOf(limit: nat, a: Act): Option<Event> {
    match a
    case Elapse(us) => Some(Tick(us))
    case Produce(id, payload) => Some(Submit(id, payload))
    case SweepBy(_, ids) => Some(DoSweep(ids, REQUEUE_BATCH, limit))
    case ClaimBy(_, worker, lease, leaseMs) => Some(DoClaim(worker, lease, leaseMs))
    case CallBy(_, call) => Some(call)
    case Drop(_) => None
  }

  /** What a process may call under its claim: FAIL_INVALID_CLAIM on a malformed one, the others on a valid one. */
  predicate OwnCall(limit: nat, s: Store, d: Duty, call: Event) {
    && d.Holding? && CallsUnder(call, d.id, d.worker, d.lease)
    && (call.DoFailInvalid? <==> !WellFormed(s, d.id))
    && (call.DoHeartbeat? ==> call.leaseMs >= 1)
    && (call.DoFinishError? ==> call.maxAttempts == limit)
  }

  ghost predicate ActEnabled(limit: nat, f: Fleet, a: Act) {
    && (EventOf(limit, a).Some? ==> Enabled(limit, f.world, EventOf(limit, a).value))
    && match a
       case SweepBy(p, _) => DutyOf(f, p).Idle?
       case ClaimBy(p, worker, _, leaseMs) => DutyOf(f, p).Ready? && worker != "" && leaseMs >= 1
       case CallBy(p, call) => OwnCall(limit, f.world.store, DutyOf(f, p), call)
       case _ => true
  }

  function WorldAfter(limit: nat, w: World, a: Act): World {
    if EventOf(limit, a).Some? then Apply(w, EventOf(limit, a).value) else w
  }

  function DutiesAfter(limit: nat, f: Fleet, a: Act): map<string, Duty> {
    match a
    case SweepBy(p, ids) =>
      f.duties[p := if Sweep(f.world.store, ids, limit, f.world.Now()).raised then Idle else Ready]
    case ClaimBy(p, worker, lease, leaseMs) =>
      var reply := Claim(f.world.store, worker, lease, f.world.Now() + leaseMs).1;
      f.duties[p := if reply.Some? then Holding(reply.value.jobId, worker, lease) else Idle]
    case Drop(p) => f.duties[p := Idle]
    case _ => f.duties
  }

  function ActStep(limit: nat, f: Fleet, a: Act): Fleet { Fleet(WorldAfter(limit, f.world, a), DutiesAfter(limit, f, a)) }

  ghost predicate ActsPossible(limit: nat, f: Fleet, acts: seq<Act>)
    decreases |acts|
  {
    acts == [] || (ActEnabled(limit, f, acts[0]) && ActsPossible(limit, ActStep(limit, f, acts[0]), acts[1..]))
  }

  function Acts(limit: nat, f: Fleet, acts: seq<Act>): Fleet
    decreases |acts|
  {
    if acts == [] then f else Acts(limit, ActStep(limit, f, acts[0]), acts[1..])
  }

  lemma ActKeeps(limit: nat, f: Fleet, a: Act)
    requires 1 <= limit && Consistent(limit, f.world) && ActEnabled(limit, f, a)
    ensures Consistent(limit, ActStep(limit, f, a).world) && Evolves(f.world, ActStep(limit, f, a).world)
  {
    if EventOf(limit, a).Some? {
      StepKeeps(limit, f.world, EventOf(limit, a).value);
    } else {
      EvolvesReflexive(f.world);
    }
  }

  // ---------------------------------------------------------------- runs of the fleet

  const NoFleet := Fleet(Start, map[])

  /** Some course of acts leads from the empty store and no process to `f`. */
  ghost predicate FleetReachable(limit: nat, f: Fleet) {
    exists acts :: ActsPossible(limit, NoFleet, acts) && Acts(limit, NoFleet, acts) == f
  }

  lemma {:induction false} OneMoreAct(limit: nat, f: Fleet, acts: seq<Act>, a: Act)
    requires ActsPossible(limit, f, acts) && ActEnabled(limit, Acts(limit, f, acts), a)
    ensures ActsPossible(limit, f, acts + [a]) && Acts(limit, f, acts + [a]) == ActStep(limit, Acts(limit, f, acts), a)
    decreases |acts|
  {
    if acts == [] {
      assert (acts + [a])[1..] == [];
    } else {
      assert (acts + [a])[1..] == acts[1..] + [a];
      OneMoreAct(limit, ActStep(limit, f, acts[0]), acts[1..], a);
    }
  }

  lemma FleetComesFurther(limit: nat, f: Fleet, a: Act)
    requires FleetReachable(limit, f) && ActEnabled(limit, f, a)
    ensures FleetReachable(limit, ActStep(limit, f, a))
  {
    var acts :| ActsPossible(limit, NoFleet, acts) && Acts(limit, NoFleet, acts) == f;
    OneMoreAct(limit, NoFleet, acts, a);
  }

  lemma NoFleetReachable(limit: nat)
    ensures FleetReachable(limit, NoFleet)
  {
    assert ActsPossible(limit, NoFleet, []) && Acts(limit, NoFleet, []) == NoFleet;
  }

  lemma {:induction false} ActsReach(limit: nat, f: Fleet, acts: seq<Act>)
    requires Reachable(limit, f.world) && ActsPossible(limit, f, acts)
    ensures Reachable(limit, Acts(limit, f, acts).world)
    decreases |acts|
  {
    if acts != [] {
      if EventOf(limit, acts[0]).Some? { ReachableStep(limit, f.world, EventOf(limit, acts[0]).value); }
      ActsReach(limit, ActStep(limit, f, acts[0]), acts[1..]);
    }
  }

  /** What a fleet reaches is reached by a run, so all results about runs hold of it. */
  lemma FleetWorldReachable(limit: nat, f: Fleet)
    requires FleetReachable(limit, f)
    ensures Reachable(limit, f.world)
  {
    var acts :| ActsPossible(limit, NoFleet, acts) && Acts(limit, NoFleet, acts) == f;
    StartReachable(limit);
    ActsReach(limit, NoFleet, acts);
  }

  // ---------------------------------------------------------------- names not yet used

  lemma {:induction false} LongerThanAll(names: set<string>) returns (n: nat)
    ensures forall s :: s in names ==> |s| < n
    decreases names
  {
    if names == {} {
      n := 0;
    } else {
      var x :| x in names;
      var m := LongerThanAll(names - {x});
      n := Max(m, |x| + 1);
    }
  }

  lemma FreshName(names: set<string>) returns (name: string)
    ensures name !in names
  {
    var n := LongerThanAll(names);
    name := seq(n, i => 'x');
  }

  // ---------------------------------------------------------------- jams

  /** The leases that sweeps take before this one. */
  function Ahead(leases: map<string, nat>, k: string): set<string>
    requires k in leases
  {
    set j | j in leases && j != k && Precedes(leases, j, k)
  }

  /** No lease before this one makes a sweep raise. */
  ghost predicate ClearBefore(limit: nat, w: World, k: string)
    requires k in w.store.leases
  {
    forall j :: j in Ahead(w.store.leases, k) ==> !RaisesIn(w.store, j, limit)
  }

  /** The expired job at which sweeps will raise. */
  ghost predicate FirstJam(limit: nat, w: World, k: string) {
    Jams(w, k, limit) && ClearBefore(limit, w, k)
  }

  lemma FirstJamExists(limit: nat, w: World)
    requires !NoJam(w, limit)
    ensures exists k :: FirstJam(limit, w, k)
  {
    var jams := set k | k in w.store.leases && Jams(w, k, limit);
    var some :| Jams(w, some, limit);
    assert some in jams;
    LeastExists(w.store.leases, jams);
    var k :| k in jams && forall j :: j in jams ==> Precedes(w.store.leases, k, j);
    forall j | j in Ahead(w.store.leases, k) ensures !RaisesIn(w.store, j, limit) {
      NameLeTotal(j, k);
      assert j !in jams;
    }
    assert FirstJam(limit, w, k);
  }

  lemma FirstJamUnique(limit: nat, w: World, k: string, j: string)
    requires FirstJam(limit, w, k) && FirstJam(limit, w, j)
    ensures k == j
  {
    NameLeTotal(k, j);
    var beforeJ, beforeK := Ahead(w.store.leases, j), Ahead(w.store.leases, k);
    assert k == j || k in beforeJ || j in beforeK;
  }

  function ReadySet(f: Fleet): set<string> { set p | p in f.duties && f.duties[p].Ready? }

  /** How many claims can still be made when `k` is the first jam: one by each process that has swept, and one
      for each full batch of leases in front. */
  function Budget(f: Fleet, k: string): nat
    requires k in f.world.store.leases
  {
    |ReadySet(f)| + |Ahead(f.world.store.leases, k)| / REQUEUE_BATCH
  }

  /** A batch that leaves out `k` is taken from before it, and is full. */
  lemma BatchBefore(w: World, ids: seq<string>, batch: nat, k: string)
    requires IsBatch(w.store.leases, w.Now(), batch, ids) && Expired(w.store.leases, k, w.Now()) && k !in ids
    ensures |ids| == batch == |ToSet(ids)| && ToSet(ids) <= Ahead(w.store.leases, k)
  {
    ToSetSize(ids);
    forall id | id in ToSet(ids) ensures id in Ahead(w.store.leases, k) {
      var i :| 0 <= i < |ids| && ids[i] == id;
    }
  }

  /** A sweep with a jam that does not raise takes a full batch from before it. */
  lemma CleanSweepTakesBatch(limit: nat, w: World, ids: seq<string>, k: string)
    requires 1 <= limit && Consistent(limit, w) && Enabled(limit, w, DoSweep(ids, REQUEUE_BATCH, limit))
    requires Jams(w, k, limit) && !Sweep(w.store, ids, limit, w.Now()).raised
    ensures var leases := Apply(w, DoSweep(ids, REQUEUE_BATCH, limit)).store.leases;
            && k in leases && Ahead(leases, k) == Ahead(w.store.leases, k) - ToSet(ids)
            && |Ahead(leases, k)| == |Ahead(w.store.leases, k)| - REQUEUE_BATCH
  {
    assert JobConsistent(limit, w, k);
    SweepLeavesJam(w.store, ids, limit, w.Now(), k);
    BatchBefore(w, ids, REQUEUE_BATCH, k);
    SweepAccounts(limit, w, ids, limit);
    var all, got := Ahead(w.store.leases, k), ToSet(ids);
    assert |all| == |got| + |all - got|;
    assert Ahead(w.store.leases - got, k) == all - got;
  }

  /** Every step leaves the first jam first, and brings nothing in front of it. */
  lemma FirstJamStays(limit: nat, w: World, e: Event, k: string)
    requires 1 <= limit && Consistent(limit, w) && Enabled(limit, w, e) && Sane(e) && FirstJam(limit, w, k)
    ensures FirstJam(limit, Apply(w, e), k)
    ensures Ahead(Apply(w, e).store.leases, k) <= Ahead(w.store.leases, k)
  {
    JamStays(limit, w, e, k);
    forall j | j in Ahead(Apply(w, e).store.leases, k)
      ensures j in Ahead(w.store.leases, k) && !RaisesIn(Apply(w, e).store, j, limit)
    {
      EarlyLeaseIsOld(limit, w, e, k, j);
    }
  }

  lemma EarlyLeaseIsOld(limit: nat, w: World, e: Event, k: string, j: string)
    requires 1 <= limit && Consistent(limit, w) && Enabled(limit, w, e) && Sane(e) && FirstJam(limit, w, k)
    requires k in Apply(w, e).store.leases && Apply(w, e).store.leases[k] == w.store.leases[k]
    requires j in Ahead(Apply(w, e).store.leases, k)
    ensures j in Ahead(w.store.leases, k) && !RaisesIn(Apply(w, e).store, j, limit)
  {
    assert JobConsistent(limit, w, j);
    match e
    case DoSweep(ids, _, maxAttempts) => SweptClaimWasClaim(w.store, ids, maxAttempts, w.Now(), j);
    case DoClaim(worker, lease, leaseMs) => ClaimTakesHead(limit, w, worker, lease, w.Now() + leaseMs);
    case _ =>
  }

  lemma ReadyAfter(limit: nat, f: Fleet, a: Act)
    requires ActEnabled(limit, f, a)
    ensures a.SweepBy? ==> a.p !in ReadySet(f)
    ensures a.SweepBy? && Sweep(f.world.store, a.ids, limit, f.world.Now()).raised ==> ReadySet(ActStep(limit, f, a)) == ReadySet(f)
    ensures a.SweepBy? && !Sweep(f.world.store, a.ids, limit, f.world.Now()).raised ==>
              ReadySet(ActStep(limit, f, a)) == ReadySet(f) + {a.p}
    ensures a.ClaimBy? ==> a.p in ReadySet(f) && ReadySet(ActStep(limit, f, a)) == ReadySet(f) - {a.p}
    ensures a.Drop? ==> ReadySet(ActStep(limit, f, a)) == ReadySet(f) - {a.p}
    ensures a.Elapse? || a.Produce? || a.CallBy? ==> ReadySet(ActStep(limit, f, a)) == ReadySet(f)
  {
  }

  lemma ActSane(limit: nat, f: Fleet, a: Act)
    requires ActEnabled(limit, f, a) && EventOf(limit, a).Some?
    ensures Sane(EventOf(limit, a).value)
  {
  }

  lemma FirstJamStaysByAct(limit: nat, f: Fleet, a: Act, k: string)
    requires 1 <= limit && Consistent(limit, f.world) && ActEnabled(limit, f, a) && FirstJam(limit, f.world, k)
    ensures FirstJam(limit, ActStep(limit, f, a).world, k)
    ensures Ahead(ActStep(limit, f, a).world.store.leases, k) <= Ahead(f.world.store.leases, k)
  {
    if EventOf(limit, a).Some? {
      ActSane(limit, f, a);
      FirstJamStays(limit, f.world, EventOf(limit, a).value, k);
    }
  }

  lemma DivideLess(a: nat, b: nat)
    requires a <= b
    ensures a / REQUEUE_BATCH <= b / REQUEUE_BATCH
  {
  }

  /** Behind a jam every claim spends the budget, and nothing replenishes it. */
  lemma BudgetSpent(limit: nat, f: Fleet, a: Act, k: string)
    requires 1 <= limit && Consistent(limit, f.world) && ActEnabled(limit, f, a) && FirstJam(limit, f.world, k)
    ensures var f' := ActStep(limit, f, a);
            FirstJam(limit, f'.world, k) && Budget(f', k) + (if a.ClaimBy? then 1 else 0) <= Budget(f, k)
  {
    var f' := ActStep(limit, f, a);
    FirstJamStaysByAct(limit, f, a, k);
    ReadyAfter(limit, f, a);
    var ahead, ahead' := Ahead(f.world.store.leases, k), Ahead(f'.world.store.leases, k);
    SubsetSize(ahead', ahead);
    DivideLess(|ahead'|, |ahead|);
    if a.SweepBy? && !Sweep(f.world.store, a.ids, limit, f.world.Now()).raised {
      CleanSweepTakesBatch(limit, f.world, a.ids, k);
    } else if !a.SweepBy? {
      SubsetSize(ReadySet(f'), ReadySet(f));
    }
  }

  function ClaimActs(acts: seq<Act>): nat {
    if acts == [] then 0 else (if acts[0].ClaimBy? then 1 else 0) + ClaimActs(acts[1..])
  }

  /** Behind a jam the fleet makes at most as many claims, ever, as there are processes that have swept and
      full batches of leases in front. */
  lemma {:induction false} ClaimsBehindJam(limit: nat, f: Fleet, acts: seq<Act>, k: string)
    requires 1 <= limit && Consistent(limit, f.world) && ActsPossible(limit, f, acts) && FirstJam(limit, f.world, k)
    ensures FirstJam(limit, Acts(limit, f, acts).world, k)
    ensures ClaimActs(acts) + Budget(Acts(limit, f, acts), k) <= Budget(f, k)
    decreases |acts|
  {
    if acts != [] {
      BudgetSpent(limit, f, acts[0], k);
      ActKeeps(limit, f, acts[0]);
      ClaimsBehindJam(limit, ActStep(limit, f, acts[0]), acts[1..], k);
    }
  }

  /** With the jam in front and no process that has swept, no continuation claims anything. */
  lemma NoClaimsBehindFrontJam(limit: nat, f: Fleet, acts: seq<Act>, k: string)
    requires 1 <= limit && Consistent(limit, f.world) && ActsPossible(limit, f, acts)
    requires JamsFront(f.world, k, limit) && ReadySet(f) == {}
    ensures ClaimActs(acts) == 0
  {
    assert Ahead(f.world.store.leases, k) == {} by {
      forall j | j in Ahead(f.world.store.leases, k) ensures false { NameLeTotal(j, k); }
    }
    ClaimsBehindJam(limit, f, acts, k);
  }
}
