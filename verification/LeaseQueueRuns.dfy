/** The queue's guarantees over whole runs: every theorem here holds from any consistent world, or
    from the empty store, along every sequence of steps the environment can produce. */
module LeaseQueueRuns {
  import opened Wrappers
  import opened ProofProtocol
  import opened LeaseQueue
  import opened LeaseQueueInvariant

  /** What can happen when: time passes at any time; the three calls without a limit can come at any time with any
      arguments; a submission needs a new id, a claim a new lease id, and a worker's limit is within `limit`. */
  lemma AnyCallAnyTime(limit: nat, w: World, e: Event)
    ensures e.Tick? || e.DoHeartbeat? || e.DoComplete? || e.DoFailInvalid? ==> Enabled(limit, w, e)
    ensures e.Submit? ==> (Enabled(limit, w, e) <==> e.id !in w.store.payloads && e.id !in w.store.states)
    ensures e.DoClaim? ==> (Enabled(limit, w, e) <==> e.lease !in w.issued)
    ensures e.DoFinishError? ==> (Enabled(limit, w, e) <==> 1 <= e.maxAttempts <= limit)
    ensures e.DoSweep? ==>
              (Enabled(limit, w, e) <==> 1 <= e.maxAttempts <= limit && IsBatch(w.store.leases, w.Now(), e.batch, e.ids))
  {
  }

  lemma StartConsistent(limit: nat)
    ensures Consistent(limit, Start)
  {
  }

  lemma {:induction false} RunKeeps(limit: nat, w: World, es: seq<Event>)
    requires 1 <= limit && Consistent(limit, w) && Possible(limit, w, es)
    ensures Consistent(limit, Run(w, es)) && Evolves(w, Run(w, es))
    decreases |es|
  {
    if es == [] {
      EvolvesReflexive(w);
    } else {
      StepKeeps(limit, w, es[0]);
      RunKeeps(limit, Apply(w, es[0]), es[1..]);
      EvolvesTransitive(w, Apply(w, es[0]), Run(w, es));
    }
  }

  // ---------------------------------------------------------------- one place

  /** The job is in the one place its state names: once in the queue, or in the lease ZSET under
      the state's own expiry, or in neither. */
  predicate InOnePlace(s: Store, id: string) {
    && id in s.states
    && !s.states[id].Unreadable?
    && InQueue(s, id) == (if s.states[id].Queued? then 1 else 0)
    && (id in s.leases <==> s.states[id].Claimed?)
    && (id in s.leases ==> s.leases[id] == s.states[id].leaseExpiresMs)
    && (s.states[id].Terminal() <==> InQueue(s, id) == 0 && id !in s.leases)
  }

  lemma ConsistentInOnePlace(limit: nat, w: World, id: string)
    requires Consistent(limit, w)
    ensures id in w.store.payloads && !w.store.payloads[id].NotJson? ==> InOnePlace(w.store, id)
    ensures id !in w.store.payloads ==>
              id !in w.store.states && InQueue(w.store, id) == 0 && id !in w.store.leases
  {
    assert JobConsistent(limit, w, id);
  }

  lemma {:induction false} RunAppend(limit: nat, w: World, es: seq<Event>, fs: seq<Event>)
    ensures Run(w, es + fs) == Run(Run(w, es), fs)
    ensures Possible(limit, w, es + fs) <==> Possible(limit, w, es) && Possible(limit, Run(w, es), fs)
    decreases |es|
  {
    if es == [] {
      assert es + fs == fs;
    } else {
      assert (es + fs)[1..] == es[1..] + fs;
      RunAppend(limit, Apply(w, es[0]), es[1..], fs);
    }
  }

  lemma RunOne(limit: nat, w: World, e: Event)
    ensures Run(w, [e]) == Apply(w, e)
    ensures Possible(limit, w, [e]) <==> Enabled(limit, w, e)
  {
    assert [e][1..] == [];
    assert Possible(limit, Apply(w, e), []);
  }

  /** Some run from the empty store leads there. */
  ghost predicate Reachable(limit: nat, w: World) {
    exists es :: Possible(limit, Start, es) && Run(Start, es) == w
  }

  lemma ReachableConsistent(limit: nat, w: World)
    requires 1 <= limit && Reachable(limit, w)
    ensures Consistent(limit, w)
  {
    var es :| Possible(limit, Start, es) && Run(Start, es) == w;
    StartConsistent(limit);
    RunKeeps(limit, Start, es);
  }

  lemma ReachableRun(limit: nat, w: World, es: seq<Event>)
    requires Reachable(limit, w) && Possible(limit, w, es)
    ensures Reachable(limit, Run(w, es))
  {
    var before :| Possible(limit, Start, before) && Run(Start, before) == w;
    RunAppend(limit, Start, before, es);
    assert Possible(limit, Start, before + es) && Run(Start, before + es) == Run(w, es);
  }

  lemma ReachableStep(limit: nat, w: World, e: Event)
    requires Reachable(limit, w) && Enabled(limit, w, e)
    ensures Reachable(limit, Apply(w, e))
  {
    RunOne(limit, w, e);
    ReachableRun(limit, w, [e]);
  }

  lemma StartReachable(limit: nat)
    ensures Reachable(limit, Start)
  {
    assert Possible(limit, Start, []) && Run(Start, []) == Start;
  }

  lemma ReachableInOnePlace(limit: nat, w: World, id: string)
    requires 1 <= limit && Reachable(limit, w)
    ensures id in w.store.payloads && !w.store.payloads[id].NotJson? ==> InOnePlace(w.store, id)
    ensures id !in w.store.payloads ==>
              id !in w.store.states && InQueue(w.store, id) == 0 && id !in w.store.leases
  {
    ReachableConsistent(limit, w);
    ConsistentInOnePlace(limit, w, id);
  }

  /** One job, submitted and claimed at `atUs`. */
  function ClaimedAlone(payload: Payload, atUs: nat, leaseMs: nat): World {
    var expires := NowMs(atUs) + leaseMs;
    World(Store([], [], map["job" := expires], map["job" := 1], map["job" := payload],
                map["job" := Claimed("worker", "lease", expires, 1)], map[]), atUs, {"lease"})
  }

  /** ... and before the claim. */
  function SubmittedAlone(payload: Payload, atUs: nat): World {
    World(Store(["job"], [], map[], map[], map["job" := payload], map["job" := Queued], map[]), atUs, {})
  }

  lemma SubmitsAlone(payload: Payload, atUs: nat)
    ensures Apply(Start, Tick(atUs)) == World(EmptyStore, atUs, {})
    ensures Apply(World(EmptyStore, atUs, {}), Submit("job", payload)) == SubmittedAlone(payload, atUs)
  {
    assert [] + ["job"] == ["job"];
  }

  lemma SubmittedAloneReachable(limit: nat, payload: Payload, atUs: nat)
    ensures Reachable(limit, SubmittedAlone(payload, atUs))
  {
    SubmitsAlone(payload, atUs);
    StartReachable(limit);
    ReachableStep(limit, Start, Tick(atUs));
    ReachableStep(limit, World(EmptyStore, atUs, {}), Submit("job", payload));
  }

  lemma ClaimsAlone(payload: Payload, atUs: nat, leaseMs: nat)
    ensures Apply(SubmittedAlone(payload, atUs), DoClaim("worker", "lease", leaseMs)) == ClaimedAlone(payload, atUs, leaseMs)
  {
    var (s, expires) := (SubmittedAlone(payload, atUs).store, NowMs(atUs) + leaseMs);
    assert ["job"][1..] == [];
    assert s.attempts["job" := 1] == map["job" := 1] && s.leases["job" := expires] == map["job" := expires];
    assert {} + {"lease"} == {"lease"};
  }

  lemma ClaimedAloneReachable(limit: nat, payload: Payload, atUs: nat, leaseMs: nat)
    ensures Reachable(limit, ClaimedAlone(payload, atUs, leaseMs))
  {
    SubmittedAloneReachable(limit, payload, atUs);
    ClaimsAlone(payload, atUs, leaseMs);
    ReachableStep(limit, SubmittedAlone(payload, atUs), DoClaim("worker", "lease", leaseMs));
  }

  lemma SweepOfOne(s: Store, id: string, maxAttempts: nat, now: nat)
    ensures Sweep(s, [id], maxAttempts, now) == SweepOne(s, id, maxAttempts, now)
  {
    assert [id][..0] == [];
    assert Sweep(s, [], maxAttempts, now) == Swept(s, 0, 0, false);
  }

  /** The job's lease, the only one, has run out: a sweep gets to it. */
  lemma SweepAlone(limit: nat, w: World)
    requires 1 <= limit && w.store.leases.Keys == {"job"} && w.store.leases["job"] <= w.Now()
    ensures var e := DoSweep(["job"], 64, 1);
            Enabled(limit, w, e) && Apply(w, e) == w.(store := SweepOne(w.store, "job", 1, w.Now()).store)
  {
    SweepOfOne(w.store, "job", 1, w.Now());
  }

  /** A payload on which `cjson.decode` fails, claimed once, left to expire at the limit and swept. */
  function StrandedAlone(text: string): World {
    var w := ClaimedAlone(NotJson(text), 0, 1);
    w.(nowUs := 1000, store := w.store.(leases := map[]))
  }

  lemma StrandedReachable(limit: nat, text: string)
    requires 1 <= limit
    ensures Reachable(limit, StrandedAlone(text)) && Stranded(StrandedAlone(text).store, "job")
  {
    var w0 := ClaimedAlone(NotJson(text), 0, 1);
    var w := w0.(nowUs := 1000);
    ClaimedAloneReachable(limit, NotJson(text), 0, 1);
    ReachableStep(limit, w0, Tick(1000));
    assert w.store.leases.Keys == {"job"};
    SweepAlone(limit, w);
    ReachableStep(limit, w, DoSweep(["job"], 64, 1));
    assert w.store.leases - {"job"} == map[];
  }

  /** Every run keeps a job with this payload in one place if and only if the payload is JSON. */
  lemma OnePlaceExactlyForJson(limit: nat, payload: Payload)
    requires 1 <= limit
    ensures (forall w, id :: Reachable(limit, w) && Lookup(w.store.payloads, id) == Some(payload) ==> InOnePlace(w.store, id))
            <==> !payload.NotJson?
  {
    if payload.NotJson? {
      StrandedReachable(limit, payload.text);
      assert Lookup(StrandedAlone(payload.text).store.payloads, "job") == Some(payload);
    } else {
      forall w, id | Reachable(limit, w) && Lookup(w.store.payloads, id) == Some(payload)
        ensures InOnePlace(w.store, id)
      {
        ReachableInOnePlace(limit, w, id);
      }
    }
  }

  /** A stranded job stays claimed for ever: no later step moves it. */
  lemma StrandedForever(limit: nat, w: World, es: seq<Event>, id: string)
    requires 1 <= limit && Consistent(limit, w) && Possible(limit, w, es) && Stranded(w.store, id)
    ensures id in w.store.payloads && w.store.payloads[id].NotJson?
    ensures Stranded(Run(w, es).store, id) && Run(w, es).store.states[id] == w.store.states[id]
  {
    RunKeeps(limit, w, es);
    assert JobConsistent(limit, w, id);
    assert JobEvolves(w, Run(w, es), id);
  }

  // ---------------------------------------------------------------- fencing

  /** Once refused, a lease is refused in every continuation, and each refused call changes nothing. */
  lemma FencingIsPermanent(limit: nat, w: World, es: seq<Event>, id: string, worker: string, lease: string,
                           e: Event)
    requires 1 <= limit && Consistent(limit, w) && Possible(limit, w, es)
    requires Fenced(w, id, worker, lease)
    requires CallsUnder(e, id, worker, lease)
    ensures !Holds(Run(w, es).store, id, worker, lease, Run(w, es).Now())
    ensures Reply(Run(w, es), e) == 0 && Apply(Run(w, es), e) == Run(w, es)
  {
    RunKeeps(limit, w, es);
    assert Fenced(Run(w, es), id, worker, lease);
  }

  /** Some job is claimed under the lease. */
  ghost predicate Held(s: Store, lease: string) {
    exists id :: id in s.states && s.states[id].Claimed? && s.states[id].leaseId == lease
  }

  /** A finishing script accepted the lease. */
  predicate Finishes(w: World, e: Event, lease: string) {
    match e
    case DoComplete(id, worker, l, _) => l == lease && Holds(w.store, id, worker, l, w.Now())
    case DoFinishError(id, worker, l, _, _, _, _) => l == lease && Holds(w.store, id, worker, l, w.Now())
    case DoFailInvalid(id, worker, l, _) => l == lease && Holds(w.store, id, worker, l, w.Now())
    case _ => false
  }

  /** The step ends the lease, by a finishing script or by a sweep. */
  ghost predicate Releases(w: World, e: Event, lease: string) {
    Held(w.store, lease) && !Held(Apply(w, e).store, lease)
  }

  ghost function Releasings(w: World, es: seq<Event>, lease: string): nat
    decreases |es|
  {
    if es == [] then 0
    else (if Releases(w, es[0], lease) then 1 else 0) + Releasings(Apply(w, es[0]), es[1..], lease)
  }

  function Finishings(w: World, es: seq<Event>, lease: string): nat
    decreases |es|
  {
    if es == [] then 0
    else (if Finishes(w, es[0], lease) then 1 else 0) + Finishings(Apply(w, es[0]), es[1..], lease)
  }

  lemma FinishReleases(limit: nat, w: World, e: Event, lease: string)
    requires Consistent(limit, w) && Finishes(w, e, lease)
    ensures Releases(w, e, lease)
  {
    var id := e.id;
    assert id in w.store.states && w.store.states[id].leaseId == lease;
    forall j | j in Apply(w, e).store.states && Apply(w, e).store.states[j].Claimed?
      ensures Apply(w, e).store.states[j].leaseId != lease
    {
    }
  }

  lemma {:induction false} SpentNeverReleases(limit: nat, w: World, es: seq<Event>, lease: string)
    requires 1 <= limit && Consistent(limit, w) && Possible(limit, w, es) && Spent(w, lease)
    ensures Releasings(w, es, lease) == 0
    decreases |es|
  {
    if es != [] {
      StepKeeps(limit, w, es[0]);
      SpentNeverReleases(limit, Apply(w, es[0]), es[1..], lease);
    }
  }

  /** However calls are repeated, lost or interleaved, a lease finishes at most one job at most once,
      and it ends at most once in all. */
  lemma {:induction false} LeaseEndsAtMostOnce(limit: nat, w: World, es: seq<Event>, lease: string)
    requires 1 <= limit && Consistent(limit, w) && Possible(limit, w, es)
    ensures Finishings(w, es, lease) <= Releasings(w, es, lease) <= 1
    decreases |es|
  {
    if es != [] {
      var e, w' := es[0], Apply(w, es[0]);
      StepKeeps(limit, w, e);
      LeaseEndsAtMostOnce(limit, w', es[1..], lease);
      if Finishes(w, e, lease) { FinishReleases(limit, w, e, lease); }
      if Releases(w, e, lease) {
        var id :| id in w.store.states && w.store.states[id].Claimed? && w.store.states[id].leaseId == lease;
        assert JobConsistent(limit, w, id);
        SpentNeverReleases(limit, w', es[1..], lease);
      }
    }
  }

  // ---------------------------------------------------------------- terminal states

  /** Terminal states and stored results are final, and every terminal job has been pushed to notify
      exactly once and no other job has. */
  lemma TerminalIsFinal(limit: nat, w: World, es: seq<Event>, id: string)
    requires 1 <= limit && Consistent(limit, w) && Possible(limit, w, es)
    ensures var (s, s') := (w.store, Run(w, es).store);
            && (id in s.states && s.states[id].Terminal() ==>
                  id in s'.states && s'.states[id] == s.states[id] && Lookup(s'.results, id) == Lookup(s.results, id))
            && (id in s.results ==> Lookup(s'.results, id) == Some(s.results[id]))
            && InNotify(s', id) == (if id in s'.states && s'.states[id].Terminal() then 1 else 0)
            && (id in s'.results ==> id in s'.states && s'.states[id].Terminal())
            && (id in s'.states && s'.states[id].Completed? ==> id in s'.results)
  {
    RunKeeps(limit, w, es);
    var w' := Run(w, es);
    assert JobConsistent(limit, w', id) && JobConsistent(limit, w, id);
    assert JobEvolves(w, w', id);
  }

  lemma NotifyOnlyGrows(limit: nat, w: World, es: seq<Event>)
    requires 1 <= limit && Consistent(limit, w) && Possible(limit, w, es)
    ensures exists pushed :: Run(w, es).store.notify == pushed + w.store.notify
  {
    RunKeeps(limit, w, es);
    var (n, n') := (w.store.notify, Run(w, es).store.notify);
    assert n' == n'[..|n'| - |n|] + n;
  }

  predicate FailureHasResult(s: Store, id: string) {
    id in s.states && s.states[id].Failed? ==> id in s.results
  }

  lemma SweptOneFailureHasResult(s: Store, last: string, maxAttempts: nat, now: nat, id: string)
    requires FailureHasResult(s, id)
    ensures FailureHasResult(SweepOne(s, last, maxAttempts, now).store, id)
  {
  }

  lemma {:induction false} SweptFailureHasResult(s: Store, ids: seq<string>, maxAttempts: nat, now: nat, id: string)
    requires FailureHasResult(s, id)
    ensures FailureHasResult(Sweep(s, ids, maxAttempts, now).store, id)
    decreases |ids|
  {
    if ids != [] {
      SweptFailureHasResult(s, ids[..|ids| - 1], maxAttempts, now, id);
      SweptOneFailureHasResult(Sweep(s, ids[..|ids| - 1], maxAttempts, now).store, ids[|ids| - 1], maxAttempts, now, id);
    }
  }

  /** A job fails without a result exactly when it was failed as a malformed claim: a waiter woken by
      notify then finds none. */
  lemma FailedWithoutResult(limit: nat, w: World, e: Event, id: string)
    requires Consistent(limit, w) && Enabled(limit, w, e)
    requires id !in w.store.states || !w.store.states[id].Failed?
    requires id in Apply(w, e).store.states && Apply(w, e).store.states[id].Failed?
    ensures id !in Apply(w, e).store.results <==> e.DoFailInvalid?
  {
    assert JobConsistent(limit, w, id);
    match e
    case DoSweep(ids, _, maxAttempts) => SweptFailureHasResult(w.store, ids, maxAttempts, w.Now(), id);
    case DoClaim(worker, lease, leaseMs) => ClaimTakesHead(limit, w, worker, lease, w.Now() + leaseMs);
    case _ =>
  }

  // ---------------------------------------------------------------- bounded attempts

  /** A state without its lease expiry, the only part a heartbeat changes. */
  function Stage(state: JobState): JobState {
    if state.Claimed? then state.(leaseExpiresMs := 0) else state
  }

  function Rank(limit: nat, s: Store, id: string): int {
    if id !in s.states then 0
    else match s.states[id]
      case Queued => 2 * (limit - Counter(s, id))
      case Claimed(_, _, _, _) => 2 * (limit - Counter(s, id)) + 1
      case _ => 0
  }

  /** From `s` to `s'` a submitted job either kept its stage and rank, or fell in rank. */
  predicate RankFalls(limit: nat, s: Store, s': Store, id: string) {
    id in s.states ==>
      && id in s'.states
      && (if Stage(s.states[id]) == Stage(s'.states[id]) then Rank(limit, s', id) == Rank(limit, s, id)
          else Rank(limit, s', id) < Rank(limit, s, id))
  }

  lemma SweepOneRank(limit: nat, w: World, last: string, maxAttempts: nat, id: string)
    requires Consistent(limit, w) && Expired(w.store.leases, last, w.Now())
    ensures var s' := SweepOne(w.store, last, maxAttempts, w.Now()).store;
            && RankFalls(limit, w.store, s', id) && s'.attempts == w.store.attempts
            && (id != last ==> Lookup(s'.states, id) == Lookup(w.store.states, id))
  {
    assert JobConsistent(limit, w, last);
  }

  lemma {:induction false} SweepRank(limit: nat, w: World, ids: seq<string>, maxAttempts: nat, id: string)
    requires Consistent(limit, w) && 1 <= maxAttempts <= limit
    requires Distinct(ids) && forall i :: 0 <= i < |ids| ==> Expired(w.store.leases, ids[i], w.Now())
    ensures RankFalls(limit, w.store, Sweep(w.store, ids, maxAttempts, w.Now()).store, id)
    ensures Sweep(w.store, ids, maxAttempts, w.Now()).store.attempts == w.store.attempts
    decreases |ids|
  {
    if ids != [] {
      var init, last := ids[..|ids| - 1], ids[|ids| - 1];
      SweepRank(limit, w, init, maxAttempts, id);
      SweepKeeps(limit, w, init, maxAttempts);
      var mid := w.(store := Sweep(w.store, init, maxAttempts, w.Now()).store);
      assert Lookup(mid.store.leases, last) == Lookup(w.store.leases, last);
      SweepOneRank(limit, mid, last, maxAttempts, id);
      assert id == last ==> Lookup(mid.store.states, id) == Lookup(w.store.states, id);
      assert id in w.store.states ==> JobEvolves(w, mid, id);
    }
  }

  lemma ClaimRank(limit: nat, w: World, e: Event, id: string)
    requires Consistent(limit, w) && e.DoClaim?
    ensures RankFalls(limit, w.store, Apply(w, e).store, id)
  {
    ClaimTakesHead(limit, w, e.worker, e.lease, w.Now() + e.leaseMs);
  }

  lemma FinishErrorRank(limit: nat, w: World, e: Event, id: string)
    requires Consistent(limit, w) && Enabled(limit, w, e) && e.DoFinishError?
    ensures RankFalls(limit, w.store, Apply(w, e).store, id)
  {
    assert JobConsistent(limit, w, id);
  }

  lemma StepRank(limit: nat, w: World, e: Event, id: string)
    requires Consistent(limit, w) && Enabled(limit, w, e)
    ensures RankFalls(limit, w.store, Apply(w, e).store, id)
  {
    match e
    case DoSweep(ids, _, maxAttempts) => SweepRank(limit, w, ids, maxAttempts, id);
    case DoClaim(_, _, _) => ClaimRank(limit, w, e, id);
    case DoFinishError(_, _, _, _, _, _, _) => FinishErrorRank(limit, w, e, id);
    case _ => assert JobConsistent(limit, w, id);
  }

  /** How many steps of the run move the job: everything but heartbeats. */
  function Movings(w: World, es: seq<Event>, id: string): nat
    decreases |es|
  {
    if es == [] then 0
    else
      var w' := Apply(w, es[0]);
      (if id in w.store.states && (id !in w'.store.states || Stage(w'.store.states[id]) != Stage(w.store.states[id]))
       then 1 else 0) + Movings(w', es[1..], id)
  }

  lemma {:induction false} MovesSpendRank(limit: nat, w: World, es: seq<Event>, id: string)
    requires 1 <= limit && Consistent(limit, w) && Possible(limit, w, es) && id in w.store.states
    ensures Movings(w, es, id) + Rank(limit, Run(w, es).store, id) <= Rank(limit, w.store, id)
    decreases |es|
  {
    if es != [] {
      StepKeeps(limit, w, es[0]);
      StepRank(limit, w, es[0], id);
      MovesSpendRank(limit, Apply(w, es[0]), es[1..], id);
    }
  }

  /** A submitted job is moved at most twice per allowed attempt, along every run. */
  lemma WorkTerminates(limit: nat, w: World, es: seq<Event>, id: string)
    requires 1 <= limit && Consistent(limit, w) && Possible(limit, w, es)
    requires id in w.store.states
    ensures Movings(w, es, id) <= 2 * limit
    ensures w.store.states[id].Terminal() ==> Movings(w, es, id) == 0
  {
    MovesSpendRank(limit, w, es, id);
    RunKeeps(limit, w, es);
    assert JobConsistent(limit, w, id) && JobConsistent(limit, Run(w, es), id);
  }

  /** In reachable stores the two attempt records agree, so `math.max` in the sweep is redundant and
      the sweep and FINISH_ERROR decide retries by the same number. */
  lemma AttemptRecordsAgree(limit: nat, w: World, id: string)
    requires Consistent(limit, w) && id in w.store.states
    ensures var s := w.store;
            && (s.states[id].Queued? ==> Counter(s, id) < limit)
            && (s.states[id].Claimed? ==> 1 <= s.states[id].attempt == Counter(s, id) <= limit
                                          && Max(Counter(s, id), s.states[id].attempt) == s.states[id].attempt)
            && (s.states[id].Terminal() ==> s.states[id].attempt == Counter(s, id) <= limit)
  {
    assert JobConsistent(limit, w, id);
  }

  // ---------------------------------------------------------------- order

  /** The job a step's CLAIM returns, if any. */
  function ClaimedBy(w: World, e: Event): seq<string> {
    match e
    case DoClaim(worker, lease, leaseMs) =>
      var reply := Claim(w.store, worker, lease, w.Now() + leaseMs).1;
      if reply.Some? then [reply.value.jobId] else []
    case _ => []
  }

  /** The jobs claimed along a run, in order. */
  function Claims(w: World, es: seq<Event>): seq<string>
    decreases |es|
  {
    if es == [] then [] else ClaimedBy(w, es[0]) + Claims(Apply(w, es[0]), es[1..])
  }

  lemma {:induction false} SweepAppends(s: Store, ids: seq<string>, maxAttempts: nat, now: nat)
    ensures s.queue <= Sweep(s, ids, maxAttempts, now).store.queue
    decreases |ids|
  {
    if ids != [] {
      SweepAppends(s, ids[..|ids| - 1], maxAttempts, now);
    }
  }

  lemma StepOrder(limit: nat, w: World, e: Event)
    requires Consistent(limit, w)
    ensures w.store.queue <= ClaimedBy(w, e) + Apply(w, e).store.queue
  {
    match e
    case DoClaim(worker, lease, leaseMs) =>
      ClaimTakesHead(limit, w, worker, lease, w.Now() + leaseMs);
    case DoSweep(ids, _, maxAttempts) => SweepAppends(w.store, ids, maxAttempts, w.Now());
    case _ =>
  }

  /** First in, first out, across requeues: the jobs claimed along a run followed by the final queue
      begin with the initial queue. So the job at index i is the (i+1)-th claimed, and until then it
      stands at index i minus the claims so far. */
  lemma {:induction false} ClaimsFollowTheQueue(limit: nat, w: World, es: seq<Event>)
    requires 1 <= limit && Consistent(limit, w) && Possible(limit, w, es)
    ensures w.store.queue <= Claims(w, es) + Run(w, es).store.queue
    decreases |es|
  {
    if es != [] {
      StepKeeps(limit, w, es[0]);
      StepOrder(limit, w, es[0]);
      ClaimsFollowTheQueue(limit, Apply(w, es[0]), es[1..]);
      var c, rest, end := ClaimedBy(w, es[0]), Claims(Apply(w, es[0]), es[1..]), Run(w, es).store.queue;
      assert c + Apply(w, es[0]).store.queue <= c + (rest + end);
      assert c + (rest + end) == Claims(w, es) + end;
    }
  }

  lemma PositionDecidesTurn(limit: nat, w: World, es: seq<Event>, i: nat)
    requires 1 <= limit && Consistent(limit, w) && Possible(limit, w, es) && i < |w.store.queue|
    ensures var (claims, end) := (Claims(w, es), Run(w, es).store.queue);
            if i < |claims| then claims[i] == w.store.queue[i]
            else i - |claims| < |end| && end[i - |claims|] == w.store.queue[i]
  {
    ClaimsFollowTheQueue(limit, w, es);
    var all := Claims(w, es) + Run(w, es).store.queue;
    assert all[i] == w.store.queue[i];
  }

  /** A CLAIM on a reachable store returns the head of the queue and discards nothing. */
  lemma ClaimDiscardsNothing(limit: nat, w: World, worker: string, lease: string, leaseMs: nat)
    requires Consistent(limit, w)
    ensures w.store.queue == ClaimedBy(w, DoClaim(worker, lease, leaseMs))
                             + Apply(w, DoClaim(worker, lease, leaseMs)).store.queue
    ensures w.store.queue == [] <==> ClaimedBy(w, DoClaim(worker, lease, leaseMs)) == []
  {
    ClaimTakesHead(limit, w, worker, lease, w.Now() + leaseMs);
  }

  lemma StepCounts(limit: nat, w: World, e: Event, id: string)
    requires Consistent(limit, w) && Enabled(limit, w, e)
    ensures Counter(Apply(w, e).store, id) == Counter(w.store, id) + multiset(ClaimedBy(w, e))[id]
  {
    match e
    case DoClaim(worker, lease, leaseMs) =>
      ClaimTakesHead(limit, w, worker, lease, w.Now() + leaseMs);
    case DoSweep(ids, _, maxAttempts) => SweepRank(limit, w, ids, maxAttempts, id);
    case _ =>
  }

  /** Every claim of a job is counted, so no job is claimed more often than the limit. */
  lemma {:induction false} ClaimsAreCounted(limit: nat, w: World, es: seq<Event>, id: string)
    requires 1 <= limit && Consistent(limit, w) && Possible(limit, w, es)
    ensures Counter(w.store, id) + multiset(Claims(w, es))[id] == Counter(Run(w, es).store, id) <= limit
    decreases |es|
  {
    if es == [] {
      assert JobConsistent(limit, w, id);
    } else {
      StepKeeps(limit, w, es[0]);
      StepCounts(limit, w, es[0], id);
      ClaimsAreCounted(limit, Apply(w, es[0]), es[1..], id);
    }
  }
}
