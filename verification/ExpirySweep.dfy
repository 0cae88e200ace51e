/** What one call of the expiry sweep does to a reachable store as a whole, and how many calls it
    takes to clear a backlog. */
module ExpirySweep {
  import opened Wrappers
  import opened ProofProtocol
  import opened LeaseQueue
  import opened LeaseQueueInvariant
  import opened LeaseQueueRuns

  const REQUEUE_BATCH: nat := 64

  /** The jobs whose lease has run out. */
  function ExpiredSet(leases: map<string, nat>, now: nat): set<string> {
    set id | id in leases && leases[id] <= now
  }

  function ToSet(ids: seq<string>): set<string> {
    set id | id in ids
  }

  lemma {:induction false} ToSetSize(ids: seq<string>)
    requires Distinct(ids)
    ensures |ToSet(ids)| == |ids|
    decreases |ids|
  {
    if ids != [] {
      var init, last := ids[..|ids| - 1], ids[|ids| - 1];
      ToSetSize(init);
      assert ToSet(ids) == ToSet(init) + {last};
    }
  }

  function Min(a: nat, b: nat): nat { if a < b then a else b }

  /** The reply of ZRANGEBYSCORE has as many members as are expired, up to the batch size. */
  lemma BatchSize(leases: map<string, nat>, now: nat, batch: nat, ids: seq<string>)
    requires IsBatch(leases, now, batch, ids)
    ensures ToSet(ids) <= ExpiredSet(leases, now)
    ensures |ids| == Min(batch, |ExpiredSet(leases, now)|)
  {
    ToSetSize(ids);
    var all, got := ExpiredSet(leases, now), ToSet(ids);
    assert |all| == |got| + |all - got|;
    if all != got {
      var id :| id in all - got;
      assert Expired(leases, id, now) && id !in ids;
    }
  }

  /** The sweep leaves this entry claimed: its payload does not decode and its attempts are used up. */
  predicate StrandsIn(s: Store, id: string, maxAttempts: nat) {
    && id in s.payloads && s.payloads[id].NotJson?
    && id in s.states && s.states[id].Claimed? && s.states[id].attempt >= maxAttempts
  }

  /** The sweep raises at this entry: its payload cannot be indexed and its attempts are used up. */
  predicate RaisesIn(s: Store, id: string, maxAttempts: nat) {
    && id in s.payloads && s.payloads[id].Scalar?
    && id in s.states && s.states[id].Claimed? && s.states[id].attempt >= maxAttempts
  }

  function StrandedIn(s: Store, ids: seq<string>, maxAttempts: nat): nat {
    if ids == [] then 0
    else StrandedIn(s, ids[..|ids| - 1], maxAttempts) + (if StrandsIn(s, ids[|ids| - 1], maxAttempts) then 1 else 0)
  }

  /** How many entries the loop gets through before one at which it raises. */
  function Served(s: Store, ids: seq<string>, maxAttempts: nat): (k: nat)
    ensures k <= |ids|
    ensures forall i :: 0 <= i < k ==> !RaisesIn(s, ids[i], maxAttempts)
    ensures k < |ids| ==> RaisesIn(s, ids[k], maxAttempts)
  {
    if ids == [] || RaisesIn(s, ids[0], maxAttempts) then 0
    else
      var rest := Served(s, ids[1..], maxAttempts);
      assert forall i :: 1 <= i < |ids| ==> ids[i] == ids[1..][i - 1];
      1 + rest
  }

  /** The entries of a reply: distinct and expired. */
  ghost predicate Sweepable(w: World, ids: seq<string>) {
    Distinct(ids) && forall i :: 0 <= i < |ids| ==> Expired(w.store.leases, ids[i], w.Now())
  }

  lemma SweepOneAccounts(limit: nat, w: World, id: string, maxAttempts: nat)
    requires Consistent(limit, w) && Expired(w.store.leases, id, w.Now())
    ensures var r := SweepOne(w.store, id, maxAttempts, w.Now());
            && r.raised == RaisesIn(w.store, id, maxAttempts)
            && (r.raised ==> r.store == w.store && r.requeued == r.failed == 0)
            && (!r.raised ==>
                  && r.requeued + r.failed == (if StrandsIn(w.store, id, maxAttempts) then 0 else 1)
                  && |r.store.queue| == |w.store.queue| + r.requeued
                  && |r.store.notify| == |w.store.notify| + r.failed
                  && r.store.leases == w.store.leases - {id})
  {
    assert JobConsistent(limit, w, id);
  }

  /** When the loop reaches the last entry, that job is still as it was. */
  lemma SweepReachesLast(limit: nat, w: World, ids: seq<string>, maxAttempts: nat)
    requires Consistent(limit, w) && 1 <= maxAttempts <= limit && ids != [] && Sweepable(w, ids)
    ensures var (init, last) := (ids[..|ids| - 1], ids[|ids| - 1]);
            var mid := w.(store := Sweep(w.store, init, maxAttempts, w.Now()).store);
            && Sweepable(w, init) && Consistent(limit, mid) && Expired(mid.store.leases, last, w.Now())
            && StrandsIn(mid.store, last, maxAttempts) == StrandsIn(w.store, last, maxAttempts)
            && RaisesIn(mid.store, last, maxAttempts) == RaisesIn(w.store, last, maxAttempts)
  {
    var init, last := ids[..|ids| - 1], ids[|ids| - 1];
    SweepKeeps(limit, w, init, maxAttempts);
    var mid := w.(store := Sweep(w.store, init, maxAttempts, w.Now()).store);
    assert last !in init;
    assert Lookup(mid.store.leases, last) == Lookup(w.store.leases, last);
    assert Lookup(mid.store.states, last) == Lookup(w.store.states, last);
    assert JobEvolves(w, mid, last) && JobConsistent(limit, w, last);
  }

  lemma ServedGrows(s: Store, ids: seq<string>, maxAttempts: nat)
    requires ids != []
    ensures var (init, j) := (ids[..|ids| - 1], Served(s, ids[..|ids| - 1], maxAttempts));
            Served(s, ids, maxAttempts) == if j < |init| then j
                                           else if RaisesIn(s, ids[|ids| - 1], maxAttempts) then |init| else |ids|
  {
    var init := ids[..|ids| - 1];
    assert forall i :: 0 <= i < |init| ==> init[i] == ids[i];
  }

  /** A sweep does what it would do with the entries before the first at which it raises, and raises
      exactly when there is such an entry. */
  lemma {:induction false} SweepStopsAtServed(limit: nat, w: World, ids: seq<string>, maxAttempts: nat)
    requires Consistent(limit, w) && 1 <= maxAttempts <= limit && Sweepable(w, ids)
    ensures var k := Served(w.store, ids, maxAttempts);
            && !Sweep(w.store, ids[..k], maxAttempts, w.Now()).raised
            && Sweep(w.store, ids, maxAttempts, w.Now()) == Sweep(w.store, ids[..k], maxAttempts, w.Now()).(raised := k < |ids|)
    decreases |ids|
  {
    if ids != [] {
      var init, last := ids[..|ids| - 1], ids[|ids| - 1];
      SweepReachesLast(limit, w, ids, maxAttempts);
      SweepStopsAtServed(limit, w, init, maxAttempts);
      var mid := w.(store := Sweep(w.store, init, maxAttempts, w.Now()).store);
      SweepOneAccounts(limit, mid, last, maxAttempts);
      ServedGrows(w.store, ids, maxAttempts);
      var j := Served(w.store, init, maxAttempts);
      assert ids[..j] == init[..j];
      if j == |init| {
        assert init[..j] == init && ids[..|ids|] == ids;
      }
    }
  }

  /** Every lease a sweep gets through is accounted for once: requeued, failed, or stranded by an
      undecodable payload. */
  lemma {:induction false} SweepAccounts(limit: nat, w: World, ids: seq<string>, maxAttempts: nat)
    requires Consistent(limit, w) && 1 <= maxAttempts <= limit && Sweepable(w, ids)
    requires !Sweep(w.store, ids, maxAttempts, w.Now()).raised
    ensures var r := Sweep(w.store, ids, maxAttempts, w.Now());
            && r.requeued + r.failed + StrandedIn(w.store, ids, maxAttempts) == |ids|
            && |r.store.queue| == |w.store.queue| + r.requeued
            && |r.store.notify| == |w.store.notify| + r.failed
            && r.store.leases == w.store.leases - ToSet(ids)
    decreases |ids|
  {
    if ids == [] {
      assert w.store.leases - ToSet(ids) == w.store.leases;
    } else {
      var init, last := ids[..|ids| - 1], ids[|ids| - 1];
      SweepReachesLast(limit, w, ids, maxAttempts);
      SweepAccounts(limit, w, init, maxAttempts);
      var mid := w.(store := Sweep(w.store, init, maxAttempts, w.Now()).store);
      SweepOneAccounts(limit, mid, last, maxAttempts);
      assert ToSet(ids) == ToSet(init) + {last};
      assert (w.store.leases - ToSet(init)) - {last} == w.store.leases - ToSet(ids);
    }
  }

  lemma RemoveExpired(leases: map<string, nat>, now: nat, gone: set<string>)
    requires gone <= ExpiredSet(leases, now)
    ensures |leases - gone| == |leases| - |gone|
    ensures |ExpiredSet(leases - gone, now)| == |ExpiredSet(leases, now)| - |gone|
  {
    var all := ExpiredSet(leases, now);
    assert (leases - gone).Keys == leases.Keys - gone;
    assert |leases.Keys| == |gone| + |leases.Keys - gone|;
    assert ExpiredSet(leases - gone, now) == all - gone;
    assert |all| == |gone| + |all - gone|;
  }

  /** One sweep of a consistent store whose reply is `ids`, and which gets through k of them. It removes
      those k leases, all of them expired, however unconditional its ZREM; it reports every one of them
      unless the payload does not decode; the queue and the notify list grow by what it reports. */
  lemma SweepConserves(limit: nat, w: World, ids: seq<string>, batch: nat, maxAttempts: nat)
    requires Consistent(limit, w) && Enabled(limit, w, DoSweep(ids, batch, maxAttempts))
    ensures var n := |ExpiredSet(w.store.leases, w.Now())|;
            var r := Sweep(w.store, ids, maxAttempts, w.Now());
            var k := Served(w.store, ids, maxAttempts);
            && |ids| == Min(batch, n) && (r.raised <==> k < |ids|)
            && |r.store.leases| == |w.store.leases| - k
            && (forall id :: id in w.store.leases && w.store.leases[id] > w.Now() ==>
                  Lookup(r.store.leases, id) == Lookup(w.store.leases, id)
                  && Lookup(r.store.states, id) == Lookup(w.store.states, id))
            && r.requeued + r.failed + StrandedIn(w.store, ids[..k], maxAttempts) == k
            && |r.store.queue| == |w.store.queue| + r.requeued
            && |r.store.notify| == |w.store.notify| + r.failed
            && |ExpiredSet(r.store.leases, w.Now())| == n - k
  {
    var k := Served(w.store, ids, maxAttempts);
    BatchSize(w.store.leases, w.Now(), batch, ids);
    SweepStopsAtServed(limit, w, ids, maxAttempts);
    assert forall i :: 0 <= i < k ==> ids[..k][i] == ids[i];
    SweepAccounts(limit, w, ids[..k], maxAttempts);
    SweepKeeps(limit, w, ids, maxAttempts);
    ToSetSize(ids[..k]);
    assert ToSet(ids[..k]) <= ToSet(ids);
    RemoveExpired(w.store.leases, w.Now(), ToSet(ids[..k]));
  }

  lemma SweepCounts(limit: nat, w: World, ids: seq<string>, batch: nat, maxAttempts: nat)
    requires Consistent(limit, w) && Enabled(limit, w, DoSweep(ids, batch, maxAttempts))
    ensures var (r, k) := (Sweep(w.store, ids, maxAttempts, w.Now()), Served(w.store, ids, maxAttempts));
            r.requeued + r.failed + StrandedIn(w.store, ids[..k], maxAttempts) == k
  {
    SweepConserves(limit, w, ids, batch, maxAttempts);
  }

  /** The sweep reports exactly what it was given if and only if no entry strands and none raises. */
  lemma SweepReportsAllExactlyWhen(limit: nat, w: World, ids: seq<string>, batch: nat, maxAttempts: nat)
    requires Consistent(limit, w) && Enabled(limit, w, DoSweep(ids, batch, maxAttempts))
    ensures var r := Sweep(w.store, ids, maxAttempts, w.Now());
            r.requeued + r.failed == |ids| <==>
              forall i :: 0 <= i < |ids| ==> !StrandsIn(w.store, ids[i], maxAttempts) && !RaisesIn(w.store, ids[i], maxAttempts)
  {
    SweepCounts(limit, w, ids, batch, maxAttempts);
    var k := Served(w.store, ids, maxAttempts);
    if k == |ids| {
      assert ids[..k] == ids;
      NoneStrand(w.store, ids, maxAttempts);
    } else {
      assert RaisesIn(w.store, ids[k], maxAttempts);
    }
  }

  lemma {:induction false} NoneStrand(s: Store, ids: seq<string>, maxAttempts: nat)
    ensures StrandedIn(s, ids, maxAttempts) == 0 <==> forall i :: 0 <= i < |ids| ==> !StrandsIn(s, ids[i], maxAttempts)
    decreases |ids|
  {
    if ids != [] {
      var init := ids[..|ids| - 1];
      NoneStrand(s, init, maxAttempts);
      assert forall i :: 0 <= i < |init| ==> init[i] == ids[i];
    }
  }

  // ---------------------------------------------------------------- backlogs

  /** Sweeps in a row by workers with one attempt limit, with the clock standing still. */
  ghost predicate OnlySweeps(es: seq<Event>, batch: nat, maxAttempts: nat) {
    forall i :: 0 <= i < |es| ==> es[i].DoSweep? && es[i].batch == batch && es[i].maxAttempts == maxAttempts
  }

  /** An expired lease at which a sweep raises. */
  predicate Jams(w: World, id: string, maxAttempts: nat) {
    Expired(w.store.leases, id, w.Now()) && RaisesIn(w.store, id, maxAttempts)
  }

  ghost predicate NoJam(w: World, maxAttempts: nat) {
    forall id :: !Jams(w, id, maxAttempts)
  }

  /** A lease at which the loop raises is still there after the sweep, and its job is as it was. */
  lemma {:induction false} SweepLeavesJam(s: Store, ids: seq<string>, maxAttempts: nat, now: nat, id: string)
    requires RaisesIn(s, id, maxAttempts) && id in s.leases && s.states[id].leaseExpiresMs <= now
    ensures var s' := Sweep(s, ids, maxAttempts, now).store;
            && id in s'.leases && s'.leases[id] == s.leases[id]
            && id in s'.states && s'.states[id] == s.states[id]
            && id in s'.payloads && s'.payloads[id] == s.payloads[id]
    ensures id in ids ==> Sweep(s, ids, maxAttempts, now).raised
    decreases |ids|
  {
    if ids != [] {
      SweepLeavesJam(s, ids[..|ids| - 1], maxAttempts, now, id);
    }
  }

  /** A sweep makes no new jam. */
  lemma SweepMakesNoJam(limit: nat, w: World, e: Event)
    requires 1 <= limit && Consistent(limit, w) && Enabled(limit, w, e) && e.DoSweep?
    requires NoJam(w, e.maxAttempts)
    ensures NoJam(Apply(w, e), e.maxAttempts)
  {
    forall id ensures !Jams(Apply(w, e), id, e.maxAttempts) {
      SweptClaimWasClaim(w.store, e.ids, e.maxAttempts, w.Now(), id);
      assert !Jams(w, id, e.maxAttempts);
    }
  }

  lemma OneSweepClears(limit: nat, w: World, e: Event)
    requires 1 <= limit && Consistent(limit, w) && Enabled(limit, w, e) && e.DoSweep?
    ensures var (w', n) := (Apply(w, e), |ExpiredSet(w.store.leases, w.Now())|);
            && Consistent(limit, w') && w'.nowUs == w.nowUs
            && |ExpiredSet(w'.store.leases, w.Now())| >= Left(n, e.batch)
            && (NoJam(w, e.maxAttempts) ==>
                  |ExpiredSet(w'.store.leases, w.Now())| == Left(n, e.batch) && NoJam(w', e.maxAttempts))
  {
    SweepConserves(limit, w, e.ids, e.batch, e.maxAttempts);
    StepKeeps(limit, w, e);
    if NoJam(w, e.maxAttempts) {
      SweepMakesNoJam(limit, w, e);
      var k := Served(w.store, e.ids, e.maxAttempts);
      if k < |e.ids| {
        assert Jams(w, e.ids[k], e.maxAttempts);
      }
    }
  }

  /** `n` less `k`, but not below zero. */
  function Left(n: nat, k: nat): nat { n - Min(k, n) }

  lemma LeftTwice(n: nat, j: nat, k: nat)
    ensures Left(Left(n, j), k) == Left(n, j + k)
  {
  }

  lemma OneMoreBatch(count: nat, batch: nat)
    requires 1 <= count
    ensures batch + (count - 1) * batch == count * batch
  {
  }

  /** At a fixed clock, k sweeps leave at least max(0, n - k * batch) expired leases, and exactly that
      many if no expired job makes them raise. */
  lemma {:induction false} SweepsClearBacklog(limit: nat, w: World, es: seq<Event>, batch: nat, maxAttempts: nat)
    requires 1 <= limit && Consistent(limit, w) && Possible(limit, w, es) && OnlySweeps(es, batch, maxAttempts)
    ensures Run(w, es).nowUs == w.nowUs
    ensures var n := |ExpiredSet(w.store.leases, w.Now())|;
            && |ExpiredSet(Run(w, es).store.leases, w.Now())| >= Left(n, |es| * batch)
            && (NoJam(w, maxAttempts) ==> |ExpiredSet(Run(w, es).store.leases, w.Now())| == Left(n, |es| * batch))
    decreases |es|
  {
    if es != [] {
      OneSweepClears(limit, w, es[0]);
      SweepsClearBacklog(limit, Apply(w, es[0]), es[1..], batch, maxAttempts);
      OneMoreBatch(|es|, batch);
      LeftTwice(|ExpiredSet(w.store.leases, w.Now())|, batch, (|es| - 1) * batch);
    }
  }

  lemma {:induction false} SweepsLeaveJam(w: World, es: seq<Event>, batch: nat, maxAttempts: nat, id: string)
    requires OnlySweeps(es, batch, maxAttempts) && Jams(w, id, maxAttempts)
    requires w.store.states[id].leaseExpiresMs <= w.Now()
    ensures Jams(Run(w, es), id, maxAttempts) && Run(w, es).nowUs == w.nowUs
    decreases |es|
  {
    if es != [] {
      assert es[0].DoSweep? && es[0].maxAttempts == maxAttempts;
      SweepLeavesJam(w.store, es[0].ids, maxAttempts, w.Now(), id);
      SweepsLeaveJam(Apply(w, es[0]), es[1..], batch, maxAttempts, id);
    }
  }

  /** No lease has run out. */
  ghost predicate AllLive(leases: map<string, nat>, now: nat) {
    forall id :: id in leases ==> leases[id] > now
  }

  lemma NoneLeft(leases: map<string, nat>, now: nat)
    ensures |ExpiredSet(leases, now)| == 0 <==> AllLive(leases, now)
  {
    if |ExpiredSet(leases, now)| == 0 {
      assert ExpiredSet(leases, now) == {};
      forall id | id in leases ensures leases[id] > now {
        assert id !in ExpiredSet(leases, now);
      }
    }
    if AllLive(leases, now) {
      assert ExpiredSet(leases, now) == {};
    }
  }

  /** With 64 to a batch, a backlog of n at a fixed clock is gone after k sweeps exactly when 64 k reaches n
      and no expired job makes them raise. */
  lemma EnoughSweepsClearAll(limit: nat, w: World, es: seq<Event>, maxAttempts: nat)
    requires 1 <= limit && Consistent(limit, w) && Possible(limit, w, es) && OnlySweeps(es, REQUEUE_BATCH, maxAttempts)
    ensures AllLive(Run(w, es).store.leases, w.Now()) <==>
              |ExpiredSet(w.store.leases, w.Now())| <= |es| * 64 && NoJam(w, maxAttempts)
  {
    SweepsClearBacklog(limit, w, es, REQUEUE_BATCH, maxAttempts);
    NoneLeft(Run(w, es).store.leases, w.Now());
    if !NoJam(w, maxAttempts) {
      var id :| Jams(w, id, maxAttempts);
      assert JobConsistent(limit, w, id);
      SweepsLeaveJam(w, es, REQUEUE_BATCH, maxAttempts, id);
      assert Run(w, es).Now() == w.Now();
      assert Expired(Run(w, es).store.leases, id, w.Now());
    }
  }

  /** An expired job at which every worker's sweep raises keeps its place in every continuation. */
  lemma JamStays(limit: nat, w: World, e: Event, id: string)
    requires 1 <= limit && Consistent(limit, w) && Enabled(limit, w, e) && Jams(w, id, limit)
    ensures Jams(Apply(w, e), id, limit)
    ensures Apply(w, e).store.states[id] == w.store.states[id] && Apply(w, e).store.leases[id] == w.store.leases[id]
    ensures e.DoSweep? && id in e.ids ==> Sweep(w.store, e.ids, e.maxAttempts, w.Now()).raised
  {
    assert JobConsistent(limit, w, id);
    NowMonotone(w.nowUs, Apply(w, e).nowUs);
    match e
    case DoSweep(ids, _, maxAttempts) => SweepLeavesJam(w.store, ids, maxAttempts, w.Now(), id);
    case DoClaim(worker, lease, leaseMs) => ClaimTakesHead(limit, w, worker, lease, w.Now() + leaseMs);
    case _ =>
  }

  /** Such a job, first of all leases in the order in which sweeps take them. */
  ghost predicate JamsFront(w: World, id: string, limit: nat) {
    && Jams(w, id, limit)
    && forall j :: j in w.store.leases && j != id ==> Precedes(w.store.leases, id, j)
  }

  /** Then a sweep raises at its first entry and changes nothing. */
  lemma FrontJamStopsSweep(limit: nat, w: World, e: Event, id: string)
    requires 1 <= limit && Consistent(limit, w) && Enabled(limit, w, e) && e.DoSweep? && e.batch >= 1
    requires JamsFront(w, id, limit)
    ensures Apply(w, e) == w && Sweep(w.store, e.ids, e.maxAttempts, w.Now()).raised
  {
    var ids := e.ids;
    assert ids != [] && (ids[0] == id || Precedes(w.store.leases, ids[0], id));
    NameLeTotal(ids[0], id);
    SweepStopsAtServed(limit, w, ids, e.maxAttempts);
    assert Served(w.store, ids, e.maxAttempts) == 0;
    assert ids[..0] == [];
  }

  /** Without the first `k` entries of a batch, the next one is first of all. */
  lemma FirstOfRest(leases: map<string, nat>, now: nat, batch: nat, ids: seq<string>, k: nat)
    requires IsBatch(leases, now, batch, ids) && k < |ids|
    ensures var rest := leases - ToSet(ids[..k]);
            ids[k] in rest && forall j :: j in rest && j != ids[k] ==> Precedes(rest, ids[k], j)
  {
    assert forall i :: 0 <= i < k ==> ids[..k][i] == ids[i] && ids[i] in ids[..k];
    var rest := leases - ToSet(ids[..k]);
    forall j | j in rest && j != ids[k] ensures Precedes(rest, ids[k], j) {
      if j in ids {
        var i :| 0 <= i < |ids| && ids[i] == j;
        assert i > k;
      }
    }
  }

  /** A sweep that has raised leaves the job it raised at in front. */
  lemma RaisedSweepLeavesFrontJam(limit: nat, w: World, e: Event)
    requires 1 <= limit && Consistent(limit, w) && Enabled(limit, w, e) && e.DoSweep? && e.maxAttempts == limit
    requires Sweep(w.store, e.ids, limit, w.Now()).raised
    ensures exists id :: id in e.ids && JamsFront(Apply(w, e), id, limit)
  {
    var ids, k := e.ids, Served(w.store, e.ids, limit);
    SweepStopsAtServed(limit, w, ids, limit);
    assert Jams(w, ids[k], limit);
    JamStays(limit, w, e, ids[k]);
    assert forall i :: 0 <= i < k ==> ids[..k][i] == ids[i];
    SweepAccounts(limit, w, ids[..k], limit);
    FirstOfRest(w.store.leases, w.Now(), e.batch, ids, k);
    assert JamsFront(Apply(w, e), ids[k], limit);
  }

  /** Leases and batches as `Args::validate` and REQUEUE_BATCH have them. */
  predicate Sane(e: Event) {
    match e
    case DoClaim(_, _, leaseMs) => leaseMs >= 1
    case DoHeartbeat(_, _, _, leaseMs) => leaseMs >= 1
    case DoSweep(_, batch, _) => batch >= 1
    case _ => true
  }

  lemma FrontJamStep(limit: nat, w: World, e: Event, id: string)
    requires 1 <= limit && Consistent(limit, w) && Enabled(limit, w, e) && Sane(e) && JamsFront(w, id, limit)
    ensures JamsFront(Apply(w, e), id, limit)
  {
    JamStays(limit, w, e, id);
    match e
    case DoSweep(_, _, _) => FrontJamStopsSweep(limit, w, e, id);
    case DoClaim(worker, lease, leaseMs) => ClaimTakesHead(limit, w, worker, lease, w.Now() + leaseMs);
    case _ =>
  }

  /** From then on no sweep of any worker does anything, in any continuation. */
  lemma {:induction false} FrontJamForever(limit: nat, w: World, es: seq<Event>, id: string)
    requires 1 <= limit && Consistent(limit, w) && Possible(limit, w, es) && JamsFront(w, id, limit)
    requires forall i :: 0 <= i < |es| ==> Sane(es[i])
    ensures JamsFront(Run(w, es), id, limit)
    ensures forall i :: 0 <= i < |es| && es[i].DoSweep? ==> Run(w, es[..i + 1]) == Run(w, es[..i])
    decreases |es|
  {
    if es != [] {
      var w' := Apply(w, es[0]);
      FrontJamStep(limit, w, es[0], id);
      StepKeeps(limit, w, es[0]);
      FrontJamForever(limit, w', es[1..], id);
      if es[0].DoSweep? { FrontJamStopsSweep(limit, w, es[0], id); }
      forall i | 0 <= i < |es| && es[i].DoSweep? ensures Run(w, es[..i + 1]) == Run(w, es[..i]) {
        assert es[..i + 1][1..] == es[1..][..i];
        if i > 0 {
          assert es[..i][1..] == es[1..][..i - 1];
          assert es[1..][i - 1] == es[i];
          assert es[1..][..i - 1 + 1] == es[1..][..i];
        } else {
          assert es[..0] == [] && es[1..][..0] == [];
        }
      }
    }
  }

  /** The sweep and FINISH_ERROR decide alike whether a job gets another attempt: an expired lease is
      requeued exactly when a retryable failure reported in time would have been. They part only when
      attempts are used up and the payload is no JSON that Lua can index: then the report fails the job
      and the sweep strands it or raises. */
  lemma RetryPathsAgree(limit: nat, w: World, laterUs: nat, id: string, maxAttempts: nat, result: ResultDoc, error: string)
    requires Consistent(limit, w) && id in w.store.states && w.store.states[id].Claimed? && id in w.store.payloads
    requires w.store.states[id].leaseExpiresMs > w.Now() && w.nowUs <= laterUs
    requires w.store.states[id].leaseExpiresMs <= NowMs(laterUs)
    ensures var state := w.store.states[id];
            var reported := FinishError(w.store, id, state.workerId, state.leaseId, true, maxAttempts, result, error, w.Now());
            var swept := SweepOne(w.store, id, maxAttempts, NowMs(laterUs));
            && (swept.requeued == 1 <==> reported.1 == 2)
            && (swept.requeued == 1 <==> state.attempt < maxAttempts)
            && (swept.failed == 1 <==> reported.1 == 1 && LuaDecode(w.store.payloads[id]).Members?)
            && (swept.requeued == 1 ==> swept.store == reported.0)
  {
    assert JobConsistent(limit, w, id);
    assert id in w.store.leases;
  }

  /** A job the sweep fails for running out of attempts gets the result its own worker would have
      written: the whole identity of the stored job, with the lease-expiry error. */
  lemma ExpiredResultKeepsIdentity(limit: nat, w: World, id: string, maxAttempts: nat)
    requires Consistent(limit, w) && Expired(w.store.leases, id, w.Now())
    requires id in w.store.payloads && w.store.payloads[id].Job? && Counter(w.store, id) >= maxAttempts
    ensures var (r, job) := (SweepOne(w.store, id, maxAttempts, w.Now()), w.store.payloads[id].job);
            && r.failed == 1
            && Lookup(r.store.results, id) ==
                 Some(ResultWith(job, Errored("proof lease expired after reaching maximum attempts")))
            && r.store.results[id].identity ==
                 Identity(Number(job.schemaVersion), Str(job.jobId), Str(job.network), Number(job.height),
                          Str(job.parentCheckpointSha256), Str(job.inputFingerprint), Str(job.guestId),
                          Str(job.blockElfSha256), Str(job.vkeyHash))
            && r.store.states[id] == Failed(w.Now(), Counter(w.store, id), LEASE_EXPIRED_MAX_ATTEMPTS_ERROR)
  {
    assert JobConsistent(limit, w, id);
  }

  // ---------------------------------------------------------------- ZRANGEBYSCORE itself

  /** Names compare as Redis compares strings: up to the first byte in which they differ, the smaller byte first, and
      a proper prefix before what it begins. */
  lemma {:induction false} NamesBytewise(a: string, b: string, n: nat)
    requires n <= |a| && n <= |b| && a[..n] == b[..n] && (n < |a| && n < |b| ==> a[n] != b[n])
    ensures NameLe(a, b) <==> n == |a| || (n < |b| && a[n] < b[n])
    decreases n
  {
    if n > 0 {
      assert a[..n][0] == a[0] && b[..n][0] == b[0];
      assert a[1..][..n - 1] == a[..n][1..] && b[1..][..n - 1] == b[..n][1..];
      NamesBytewise(a[1..], b[1..], n - 1);
    }
  }

  lemma {:induction false} NameLeTotal(a: string, b: string)
    ensures NameLe(a, b) || NameLe(b, a)
    ensures NameLe(a, b) && NameLe(b, a) ==> a == b
    decreases |a|
  {
    if a != [] && b != [] {
      NameLeTotal(a[1..], b[1..]);
      assert a == [a[0]] + a[1..] && b == [b[0]] + b[1..];
    }
  }

  lemma {:induction false} NameLeTransitive(a: string, b: string, c: string)
    requires NameLe(a, b) && NameLe(b, c)
    ensures NameLe(a, c)
    decreases |a|
  {
    if a != [] && a[0] == b[0] && b[0] == c[0] {
      NameLeTransitive(a[1..], b[1..], c[1..]);
    }
  }

  lemma ReplyHasSameMembers(leases: map<string, nat>, now: nat, batch: nat, x: seq<string>, y: seq<string>)
    requires IsBatch(leases, now, batch, x) && IsBatch(leases, now, batch, y)
    ensures forall id :: id in x ==> id in y
  {
    forall id | id in x ensures id in y {
      if id !in y {
        ToSetSize(x);
        ToSetSize(y);
        var other := MissingFrom(ToSet(y), ToSet(x), id);
        NameLeTotal(id, other);
      }
    }
  }

  /** A set no larger than another that has an element the first lacks has one the second lacks. */
  lemma MissingFrom(small: set<string>, large: set<string>, id: string) returns (other: string)
    requires |large| <= |small| && id in large && id !in small
    ensures other in small && other !in large
  {
    if small <= large {
      assert small <= large - {id};
      SubsetSize(small, large - {id});
    }
    other :| other in small && other !in large;
  }

  lemma SubsetSize(a: set<string>, b: set<string>)
    requires a <= b
    ensures |a| <= |b|
  {
    assert |b| == |a| + |b - a|;
  }

  lemma NextPrecedes(leases: map<string, nat>, now: nat, batch: nat, x: seq<string>, y: seq<string>, i: nat)
    requires IsBatch(leases, now, batch, x) && IsBatch(leases, now, batch, y)
    requires i < |x| == |y| && x[..i] == y[..i]
    ensures Precedes(leases, y[i], x[i])
  {
    ReplyHasSameMembers(leases, now, batch, x, y);
    assert forall m :: 0 <= m < i ==> x[..i][m] == x[m] && y[..i][m] == y[m];
    assert x[i] in y;
    var j :| 0 <= j < |y| && y[j] == x[i];
    NameLeTotal(x[i], x[i]);
  }

  lemma {:induction false} RepliesAgree(leases: map<string, nat>, now: nat, batch: nat, x: seq<string>, y: seq<string>, n: nat)
    requires IsBatch(leases, now, batch, x) && IsBatch(leases, now, batch, y)
    requires n <= |x| == |y|
    ensures x[..n] == y[..n]
    decreases n
  {
    if n > 0 {
      var i := n - 1;
      RepliesAgree(leases, now, batch, x, y, i);
      NextPrecedes(leases, now, batch, x, y, i);
      NextPrecedes(leases, now, batch, y, x, i);
      NameLeTotal(x[i], y[i]);
      assert x[..n] == x[..i] + [x[i]] && y[..n] == y[..i] + [y[i]];
    }
  }

  /** ZRANGEBYSCORE has no choice. */
  lemma ReplyIsDetermined(leases: map<string, nat>, now: nat, batch: nat, x: seq<string>, y: seq<string>)
    requires IsBatch(leases, now, batch, x)
    ensures IsBatch(leases, now, batch, y) <==> x == y
  {
    BatchSize(leases, now, batch, x);
    if IsBatch(leases, now, batch, y) {
      BatchSize(leases, now, batch, y);
      RepliesAgree(leases, now, batch, x, y, |x|);
      assert x[..|x|] == x && y[..|x|] == y;
    }
  }

  lemma {:induction false} LeastExists(leases: map<string, nat>, rest: set<string>)
    requires rest != {} && rest <= leases.Keys
    ensures exists id :: id in rest && forall j :: j in rest ==> Precedes(leases, id, j)
    decreases rest
  {
    var x :| x in rest;
    NameLeTotal(x, x);
    if rest != {x} {
      LeastExists(leases, rest - {x});
      var y :| y in rest - {x} && forall j :: j in rest - {x} ==> Precedes(leases, y, j);
      NameLeTotal(x, y);
      if Precedes(leases, x, y) {
        forall j | j in rest ensures Precedes(leases, x, j) {
          if j != x {
            assert Precedes(leases, y, j);
            if leases[x] == leases[j] { NameLeTransitive(x, y, j); }
          }
        }
      } else {
        assert forall j :: j in rest ==> Precedes(leases, y, j);
      }
    }
  }

  /** ZRANGEBYSCORE leases -inf now LIMIT 0 batch. */
  method RangeByScore(leases: map<string, nat>, now: nat, batch: nat) returns (ids: seq<string>)
    ensures IsBatch(leases, now, batch, ids)
  {
    ids := [];
    var rest := ExpiredSet(leases, now);
    while rest != {} && |ids| < batch
      invariant rest <= ExpiredSet(leases, now)
      invariant forall id :: Expired(leases, id, now) ==> (id in rest) != (id in ids)
      invariant forall i :: 0 <= i < |ids| ==> Expired(leases, ids[i], now)
      invariant Distinct(ids) && |ids| <= batch
      invariant forall i, j :: 0 <= i < j < |ids| ==> Precedes(leases, ids[i], ids[j])
      invariant forall i, id :: 0 <= i < |ids| && id in rest ==> Precedes(leases, ids[i], id)
      decreases rest
    {
      LeastExists(leases, rest);
      var next :| next in rest && forall j :: j in rest ==> Precedes(leases, next, j);
      assert next !in ids;
      ids := ids + [next];
      rest := rest - {next};
    }
  }
}
