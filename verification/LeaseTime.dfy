/** Redis time against the worker's own clock: how often a holder must renew, and how far its local
    retry deadline can lie from the real expiry. Both clocks are read in microseconds on one axis. */
module LeaseTime {
  import opened Wrappers
  import opened ProofProtocol
  import opened LeaseQueue
  import opened LeaseQueueInvariant
  import opened LeaseQueueRuns
  import opened JobLifecycle

  /** A worker's hold on a job: the claim it made, and the lease length it renews with. */
  datatype Tenure = Tenure(id: string, worker: string, lease: string, leaseMs: nat)

  /** A guarded call made under this tenure. */
  predicate CallsFor(e: Event, t: Tenure) { CallsUnder(e, t.id, t.worker, t.lease) }

  predicate HoldsFor(w: World, t: Tenure) { Holds(w.store, t.id, t.worker, t.lease, w.Now()) }

  function BeatOf(t: Tenure): Event { DoHeartbeat(t.id, t.worker, t.lease, t.leaseMs) }

  // ---------------------------------------------------------------- renewal

  /** One microsecond past the longest gap that is safe at every reading of the clock. */
  function FirstUnsafeGap(leaseMs: nat): nat
    requires 1 <= leaseMs
  {
    (leaseMs - 1) * 1000 + 1
  }

  lemma StillAhead(leaseMs: nat, beatUs: nat, nowUs: nat)
    requires 1 <= leaseMs && beatUs <= nowUs < beatUs + FirstUnsafeGap(leaseMs)
    ensures NowMs(beatUs) + leaseMs > NowMs(nowUs)
  {
  }

  /** Along the run the holder never finishes its own lease, always renews it with its own `leaseMs`, and
      at every step the last renewal is at most `gapUs` old. Everything else about the run is free. */
  predicate KeptRenewed(w: World, es: seq<Event>, t: Tenure, gapUs: nat, beatUs: nat)
    decreases |es|
  {
    && w.nowUs - beatUs <= gapUs
    && (es == [] ||
        (&& (CallsFor(es[0], t) ==> es[0] == BeatOf(t))
         && KeptRenewed(Apply(w, es[0]), es[1..], t, gapUs, if CallsFor(es[0], t) then w.nowUs else beatUs)))
  }

  /** The job is claimed under this very tenure, last renewed at `beatUs`. */
  predicate ClaimedSince(s: Store, t: Tenure, attempt: nat, beatUs: nat) {
    t.id in s.states && s.states[t.id] == Claimed(t.worker, t.lease, NowMs(beatUs) + t.leaseMs, attempt) && t.id in s.leases
  }

  lemma SweepSparesLive(limit: nat, w: World, e: Event, id: string)
    requires Consistent(limit, w) && Enabled(limit, w, e) && e.DoSweep?
    requires id in w.store.leases && w.store.leases[id] > w.Now()
    ensures Lookup(Apply(w, e).store.states, id) == Lookup(w.store.states, id)
    ensures Lookup(Apply(w, e).store.leases, id) == Lookup(w.store.leases, id)
  {
    SweepKeeps(limit, w, e.ids, e.maxAttempts);
  }

  lemma RenewedStep(limit: nat, w: World, e: Event, t: Tenure, attempt: nat, beatUs: nat)
    requires Consistent(limit, w) && Enabled(limit, w, e) && 1 <= t.leaseMs
    requires ClaimedSince(w.store, t, attempt, beatUs) && beatUs <= w.nowUs < beatUs + FirstUnsafeGap(t.leaseMs)
    requires CallsFor(e, t) ==> e == BeatOf(t)
    ensures ClaimedSince(Apply(w, e).store, t, attempt, if CallsFor(e, t) then w.nowUs else beatUs)
  {
    StillAhead(t.leaseMs, beatUs, w.nowUs);
    assert JobConsistent(limit, w, t.id);
    match e
    case DoSweep(_, _, _) => SweepSparesLive(limit, w, e, t.id);
    case DoClaim(k, l, ms) =>
      ClaimTakesHead(limit, w, k, l, w.Now() + ms);
    case _ =>
  }

  lemma HoldsWhileRenewed(limit: nat, w: World, t: Tenure, attempt: nat, beatUs: nat)
    requires Consistent(limit, w) && 1 <= t.leaseMs
    requires ClaimedSince(w.store, t, attempt, beatUs) && beatUs <= w.nowUs < beatUs + FirstUnsafeGap(t.leaseMs)
    ensures HoldsFor(w, t) && Lookup(w.store.leases, t.id) == Some(w.store.states[t.id].leaseExpiresMs)
  {
    StillAhead(t.leaseMs, beatUs, w.nowUs);
    assert JobConsistent(limit, w, t.id);
  }

  /** A holder that renews often enough keeps its job: no interleaving of other claims, sweeps,
      submissions, finishing calls or foreign heartbeats changes anything but the expiry. */
  lemma {:induction false} RenewalKeepsTheLease(limit: nat, w: World, es: seq<Event>, t: Tenure, attempt: nat, gapUs: nat,
                                                beatUs: nat)
    requires 1 <= limit && Consistent(limit, w) && Possible(limit, w, es)
    requires 1 <= t.leaseMs && gapUs < FirstUnsafeGap(t.leaseMs)
    requires ClaimedSince(w.store, t, attempt, beatUs) && beatUs <= w.nowUs && KeptRenewed(w, es, t, gapUs, beatUs)
    ensures var w' := Run(w, es);
            && HoldsFor(w', t) && w'.store.states[t.id].attempt == attempt
            && Lookup(w'.store.leases, t.id) == Some(w'.store.states[t.id].leaseExpiresMs)
    decreases |es|
  {
    if es == [] {
      HoldsWhileRenewed(limit, w, t, attempt, beatUs);
    } else {
      RenewedStep(limit, w, es[0], t, attempt, beatUs);
      StepKeeps(limit, w, es[0]);
      RenewalKeepsTheLease(limit, Apply(w, es[0]), es[1..], t, attempt, gapUs,
                           if CallsFor(es[0], t) then w.nowUs else beatUs);
    }
  }

  /** From any reachable store, a holder whose renewals are at most `gapUs` apart always holds its lease. */
  ghost predicate GapIsSafe(limit: nat, leaseMs: nat, gapUs: nat) {
    forall w, es, t: Tenure, attempt: nat, beatUs: nat ::
      (&& Reachable(limit, w) && Possible(limit, w, es) && t.leaseMs == leaseMs
       && ClaimedSince(w.store, t, attempt, beatUs) && beatUs <= w.nowUs && KeptRenewed(w, es, t, gapUs, beatUs))
      ==> HoldsFor(Run(w, es), t)
  }

  function HolderAlone(leaseMs: nat): Tenure { Tenure("job", "worker", "lease", leaseMs) }

  /** A claim made when the clock shows 999 microseconds past a millisecond, some time later. */
  function ClaimedLate(payload: Payload, leaseMs: nat, afterUs: nat): World {
    ClaimedAlone(payload, 999, leaseMs).(nowUs := 999 + afterUs)
  }

  /** Renewals `gapUs` apart keep every lease in every run if and only if the gap is at most one
      millisecond less than the lease: flooring TIME to milliseconds costs up to 999 microseconds, so
      "less than the lease apart" is not enough. */
  lemma RenewalGapExact(limit: nat, leaseMs: nat, gapUs: nat)
    requires 1 <= limit && 1 <= leaseMs
    ensures GapIsSafe(limit, leaseMs, gapUs) <==> gapUs < FirstUnsafeGap(leaseMs)
  {
    if gapUs < FirstUnsafeGap(leaseMs) {
      forall w, es, t: Tenure, attempt: nat, beatUs: nat |
        && Reachable(limit, w) && Possible(limit, w, es) && t.leaseMs == leaseMs
        && ClaimedSince(w.store, t, attempt, beatUs) && beatUs <= w.nowUs && KeptRenewed(w, es, t, gapUs, beatUs)
        ensures HoldsFor(Run(w, es), t)
      {
        ReachableConsistent(limit, w);
        RenewalKeepsTheLease(limit, w, es, t, attempt, gapUs, beatUs);
      }
    } else {
      var w, t, tick := ClaimedAlone(NotJson(""), 999, leaseMs), HolderAlone(leaseMs), Tick(FirstUnsafeGap(leaseMs));
      ClaimedAloneReachable(limit, NotJson(""), 999, leaseMs);
      RunOne(limit, w, tick);
      assert [tick][1..] == [];
      assert KeptRenewed(Apply(w, tick), [], t, gapUs, 999);
      assert KeptRenewed(w, [tick], t, gapUs, 999);
      assert ClaimedSince(w.store, t, 1, 999);
      assert !HoldsFor(Run(w, [tick]), t);
    }
  }

  /** What becomes of such a holder: before one lease has passed, any other worker's sweep takes the job
      away, and the holder's own calls are refused. */
  lemma LateRenewalLosesTheJob(limit: nat, leaseMs: nat, job: ProofJob)
    requires 1 <= limit && 1 <= leaseMs
    ensures var (w, sweep) := (ClaimedLate(Job(job), leaseMs, FirstUnsafeGap(leaseMs)), DoSweep(["job"], 64, 1));
            && FirstUnsafeGap(leaseMs) < leaseMs * 1000
            && Reachable(limit, w) && Reply(w, BeatOf(HolderAlone(leaseMs))) == 0
            && Enabled(limit, w, sweep)
            && var states := Apply(w, sweep).store.states; "job" in states && states["job"].Failed?
  {
    var w0 := ClaimedAlone(Job(job), 999, leaseMs);
    var w := ClaimedLate(Job(job), leaseMs, FirstUnsafeGap(leaseMs));
    ClaimedAloneReachable(limit, Job(job), 999, leaseMs);
    ReachableStep(limit, w0, Tick(FirstUnsafeGap(leaseMs)));
    assert w.store.leases.Keys == {"job"};
    SweepAlone(limit, w);
  }

  // ---------------------------------------------------------------- the local retry deadline

  /** What happens between two readings of a claim's retry deadline: a step of the world, which may
      be this worker's own heartbeat with its reply lost, or a heartbeat begun at `startUs` on the
      local clock and acknowledged. */
  datatype Moment = Elsewhere(e: Event) | Acknowledged(startUs: int)

  /** `retry_deadline` moves only when a heartbeat is acknowledged, to its local start plus the lease. */
  function DeadlineStep(w: World, deadlineUs: int, m: Moment, t: Tenure): (World, int) {
    match m
    case Elsewhere(e) => (Apply(w, e), deadlineUs)
    case Acknowledged(startUs) =>
      (Apply(w, BeatOf(t)), if Reply(w, BeatOf(t)) == 1 then startUs + t.leaseMs * 1000 else deadlineUs)
  }

  function DeadlineRun(w: World, deadlineUs: int, ms: seq<Moment>, t: Tenure): (World, int)
    decreases |ms|
  {
    if ms == [] then (w, deadlineUs)
    else
      var (w', deadline') := DeadlineStep(w, deadlineUs, ms[0], t);
      DeadlineRun(w', deadline', ms[1..], t)
  }

  /** Steps are enabled, a request starts before Redis runs it, and a lease is only ever renewed with
      its own worker's `lease_ms`. */
  ghost predicate DeadlinePossible(limit: nat, w: World, ms: seq<Moment>, t: Tenure)
    decreases |ms|
  {
    ms == [] ||
    (&& (match ms[0]
         case Elsewhere(e) => Enabled(limit, w, e) && (e.DoHeartbeat? && e.lease == t.lease ==> e.leaseMs == t.leaseMs)
         case Acknowledged(startUs) => startUs <= w.nowUs)
     && DeadlinePossible(limit, DeadlineStep(w, 0, ms[0], t).0, ms[1..], t))
  }

  /** Claimed under the lease, expired or not. */
  predicate Has(s: Store, t: Tenure) {
    t.id in s.states && s.states[t.id].MatchesLease(t.worker, t.lease)
  }

  /** The deadline passes the expiry by less than a millisecond, and the expiry lies at most one
      lease ahead of the clock. */
  predicate DeadlineClose(w: World, deadlineUs: int, t: Tenure)
    requires t.id in w.store.states && w.store.states[t.id].Claimed?
  {
    var expires := w.store.states[t.id].leaseExpiresMs;
    deadlineUs - expires * 1000 < 1000 && expires <= w.Now() + t.leaseMs
  }

  /** A step that leaves the tenure's claim as it was, or is a heartbeat. */
  lemma ClaimCarries(limit: nat, w: World, e: Event, t: Tenure)
    requires Consistent(limit, w) && Enabled(limit, w, e) && t.lease in w.issued && Has(Apply(w, e).store, t)
    ensures Has(w.store, t)
    ensures e.DoHeartbeat? || Apply(w, e).store.states[t.id] == w.store.states[t.id]
  {
    match e
    case DoSweep(ids, _, maxAttempts) => SweptClaimWasClaim(w.store, ids, maxAttempts, w.Now(), t.id);
    case DoClaim(k, l, ms) =>
      ClaimTakesHead(limit, w, k, l, w.Now() + ms);
    case _ =>
  }

  lemma DeadlineEvent(limit: nat, w: World, e: Event, t: Tenure, deadlineUs: int)
    requires Consistent(limit, w) && Enabled(limit, w, e) && t.lease in w.issued
    requires e.DoHeartbeat? && e.lease == t.lease ==> e.leaseMs == t.leaseMs
    requires Has(w.store, t) ==> DeadlineClose(w, deadlineUs, t)
    requires Has(Apply(w, e).store, t)
    ensures Has(w.store, t) && DeadlineClose(Apply(w, e), deadlineUs, t)
  {
    ClaimCarries(limit, w, e, t);
    if !e.DoHeartbeat? { NowMonotone(w.nowUs, Apply(w, e).nowUs); }
  }

  /** After any mix of acknowledged heartbeats, lost heartbeats and other workers' steps, a lease still
      held has a local deadline less than one millisecond past its Redis expiry. */
  lemma {:induction false} DeadlineIsConservative(limit: nat, w: World, deadlineUs: int, ms: seq<Moment>, t: Tenure)
    requires 1 <= limit && Consistent(limit, w) && t.lease in w.issued && DeadlinePossible(limit, w, ms, t)
    requires Has(w.store, t) ==> DeadlineClose(w, deadlineUs, t)
    ensures var (w', deadline') := DeadlineRun(w, deadlineUs, ms, t);
            Has(w'.store, t) ==> deadline' - w'.store.states[t.id].leaseExpiresMs * 1000 < 1000
    decreases |ms|
  {
    if ms != [] {
      var e := match ms[0] case Elsewhere(e) => e case Acknowledged(_) => BeatOf(t);
      var (w', deadline') := DeadlineStep(w, deadlineUs, ms[0], t);
      StepKeeps(limit, w, e);
      if Has(w'.store, t) {
        DeadlineEvent(limit, w, e, t, deadlineUs);
      }
      DeadlineIsConservative(limit, w', deadline', ms[1..], t);
    }
  }

  /** A claim begun at `startUs` sets a deadline that is close in the same sense, so the theorem above
      applies from the claim on; and 999 microseconds of excess do occur. */
  lemma ClaimDeadlineClose(limit: nat, w: World, startUs: int, worker: string, lease: string, leaseMs: nat)
    requires Consistent(limit, w) && lease !in w.issued && w.store.queue != [] && startUs <= w.nowUs
    ensures var (w', t) := (Apply(w, DoClaim(worker, lease, leaseMs)), Tenure(w.store.queue[0], worker, lease, leaseMs));
            Has(w'.store, t) && DeadlineClose(w', startUs + leaseMs * 1000, t)
            && w'.store.states[t.id].leaseExpiresMs == w.nowUs / 1000 + leaseMs
  {
    ClaimTakesHead(limit, w, worker, lease, w.Now() + leaseMs);
    assert JobConsistent(limit, w, w.store.queue[0]);
    assert w.store.queue[0] in multiset(w.store.queue);
  }

  lemma Floored(nowUs: nat)
    ensures NowMs(nowUs) * 1000 == nowUs - nowUs % 1000
  {
  }

  // ---------------------------------------------------------------- the deadline exactly

  /** The steps of the world that these moments are. */
  function StepsOf(ms: seq<Moment>, t: Tenure): seq<Event> {
    seq(|ms|, i requires 0 <= i < |ms| =>
      if ms[i].Elsewhere? then ms[i].e else DoHeartbeat(t.id, t.worker, t.lease, t.leaseMs))
  }

  /** The claim is there and has not run out. */
  predicate Live(w: World, t: Tenure) {
    && t.id in w.store.states && w.store.states[t.id].Claimed?
    && w.store.states[t.id].workerId == t.worker && w.store.states[t.id].leaseId == t.lease
    && w.store.states[t.id].leaseExpiresMs > w.nowUs / 1000
  }

  /** At moment `i` of the run a heartbeat was accepted and its acknowledgement heard. */
  predicate HeardAt(w: World, ms: seq<Moment>, t: Tenure, i: nat)
    requires i < |ms|
  {
    ms[i].Acknowledged? && Live(Run(w, StepsOf(ms, t)[..i]), t)
  }

  lemma DeadlineStepIs(w: World, deadlineUs: int, m: Moment, t: Tenure)
    ensures DeadlineStep(w, deadlineUs, m, t) ==
              (Apply(w, if m.Elsewhere? then m.e else DoHeartbeat(t.id, t.worker, t.lease, t.leaseMs)),
               if m.Acknowledged? && Live(w, t) then m.startUs + t.leaseMs * 1000 else deadlineUs)
  {
    MillisecondsOf(w.nowUs);
  }

  lemma HeardLater(w: World, ms: seq<Moment>, t: Tenure, i: nat)
    requires 0 < i < |ms|
    ensures HeardAt(w, ms, t, i) == HeardAt(Apply(w, StepsOf(ms, t)[0]), ms[1..], t, i - 1)
    ensures Run(w, StepsOf(ms, t)[..i]) == Run(Apply(w, StepsOf(ms, t)[0]), StepsOf(ms[1..], t)[..i - 1])
  {
    var es := StepsOf(ms, t);
    assert es[..i][1..] == StepsOf(ms[1..], t)[..i - 1];
  }

  /** The last heartbeat heard along the run was at moment `last`, or there was none and `last` is -1. */
  predicate LastHeard(w: World, ms: seq<Moment>, t: Tenure, last: int) {
    && -1 <= last < |ms|
    && (last >= 0 ==> HeardAt(w, ms, t, last))
    && forall i :: last < i < |ms| ==> !HeardAt(w, ms, t, i)
  }

  lemma LastHeardInRest(w: World, ms: seq<Moment>, t: Tenure, last: int)
    requires ms != [] && LastHeard(w, ms, t, last)
    ensures LastHeard(Apply(w, StepsOf(ms, t)[0]), ms[1..], t, if last > 0 then last - 1 else -1)
  {
    var w' := Apply(w, StepsOf(ms, t)[0]);
    if last > 0 { HeardLater(w, ms, t, last); }
    forall i | (if last > 0 then last - 1 else -1) < i < |ms| - 1 ensures !HeardAt(w', ms[1..], t, i) {
      HeardLater(w, ms, t, i + 1);
    }
  }

  /** The local deadline is where the last acknowledged call put it: at the local start of that heartbeat plus
      the lease, or, if none is acknowledged, where the claim put it. The world goes on meanwhile as if nobody
      kept a deadline. */
  lemma {:induction false} DeadlineIsLastHeard(w: World, deadlineUs: int, ms: seq<Moment>, t: Tenure, last: int)
    requires LastHeard(w, ms, t, last)
    ensures DeadlineRun(w, deadlineUs, ms, t) ==
              (Run(w, StepsOf(ms, t)), if last < 0 then deadlineUs else ms[last].startUs + t.leaseMs * 1000)
    decreases |ms|
  {
    if ms == [] {
      assert StepsOf(ms, t) == [];
    } else {
      var es := StepsOf(ms, t);
      var (w', d') := DeadlineStep(w, deadlineUs, ms[0], t);
      DeadlineStepIs(w, deadlineUs, ms[0], t);
      assert es[1..] == StepsOf(ms[1..], t) && es[..0] == [];
      assert HeardAt(w, ms, t, 0) <==> ms[0].Acknowledged? && Live(w, t);
      LastHeardInRest(w, ms, t, last);
      DeadlineIsLastHeard(w', d', ms[1..], t, if last > 0 then last - 1 else -1);
    }
  }

  /** Step `i` of the run renews the lease. */
  predicate RenewsAt(w: World, es: seq<Event>, t: Tenure, i: nat)
    requires i < |es|
  {
    es[i].DoHeartbeat? && CallsFor(es[i], t) && Live(Run(w, es[..i]), t)
  }

  lemma {:induction false} StepsPossible(limit: nat, w: World, ms: seq<Moment>, t: Tenure)
    requires DeadlinePossible(limit, w, ms, t)
    ensures Possible(limit, w, StepsOf(ms, t))
    decreases |ms|
  {
    if ms != [] {
      DeadlineStepIs(w, 0, ms[0], t);
      StepsPossible(limit, DeadlineStep(w, 0, ms[0], t).0, ms[1..], t);
      assert StepsOf(ms, t)[1..] == StepsOf(ms[1..], t);
    }
  }

  lemma RenewsLater(w: World, es: seq<Event>, t: Tenure, i: nat)
    requires 0 < i < |es|
    ensures RenewsAt(w, es, t, i) == RenewsAt(Apply(w, es[0]), es[1..], t, i - 1)
    ensures Run(w, es[..i]) == Run(Apply(w, es[0]), es[1..][..i - 1])
  {
    assert es[..i][1..] == es[1..][..i - 1];
  }

  lemma NoneRenewsLater(w: World, es: seq<Event>, t: Tenure, k: int)
    requires es != [] && forall i :: k < i < |es| ==> 0 <= i && !RenewsAt(w, es, t, i)
    ensures forall i :: k - 1 < i < |es| - 1 && 0 <= i ==> !RenewsAt(Apply(w, es[0]), es[1..], t, i)
  {
    forall i | k - 1 < i < |es| - 1 && 0 <= i ensures !RenewsAt(Apply(w, es[0]), es[1..], t, i) {
      RenewsLater(w, es, t, i + 1);
    }
  }

  /** A lease still held at the end that no step has renewed has the expiry it had. */
  lemma {:induction false} ExpiryStays(limit: nat, w: World, es: seq<Event>, t: Tenure)
    requires 1 <= limit && Consistent(limit, w) && Possible(limit, w, es) && t.lease in w.issued
    requires Has(Run(w, es).store, t) && forall i :: 0 <= i < |es| ==> !RenewsAt(w, es, t, i)
    ensures Has(w.store, t) && Run(w, es).store.states[t.id] == w.store.states[t.id]
    decreases |es|
  {
    if es != [] {
      StepKeeps(limit, w, es[0]);
      NoneRenewsLater(w, es, t, -1);
      ExpiryStays(limit, Apply(w, es[0]), es[1..], t);
      ClaimCarries(limit, w, es[0], t);
      assert es[..0] == [] && !RenewsAt(w, es, t, 0);
      if es[0].DoHeartbeat? { AcceptedExactlyWhen(w, es[0]); }
    }
  }

  /** A lease still held runs out when its last renewal said. */
  lemma {:induction false} ExpiryOfLastRenewal(limit: nat, w: World, es: seq<Event>, t: Tenure, k: nat)
    requires 1 <= limit && Consistent(limit, w) && Possible(limit, w, es) && t.lease in w.issued
    requires k < |es| && es[k] == BeatOf(t) && Live(Run(w, es[..k]), t)
    requires forall i :: k < i < |es| ==> !RenewsAt(w, es, t, i)
    requires Has(Run(w, es).store, t)
    ensures Run(w, es).store.states[t.id].leaseExpiresMs == Run(w, es[..k]).nowUs / 1000 + t.leaseMs
    decreases k
  {
    StepKeeps(limit, w, es[0]);
    NoneRenewsLater(w, es, t, k);
    if k == 0 {
      assert es[..0] == [];
      ExpiryStays(limit, Apply(w, es[0]), es[1..], t);
      AcceptedExactlyWhen(w, es[0]);
      AcceptedWrites(w, es[0]);
    } else {
      RenewsLater(w, es, t, k);
      ExpiryOfLastRenewal(limit, Apply(w, es[0]), es[1..], t, k - 1);
    }
  }

  /** The last acknowledged call of a claim, begun by the worker at `beginUs` and run by Redis at `runUs`: the
      heartbeat at `last`, or, before any, the claim itself. */
  datatype Acked = Acked(beginUs: int, runUs: nat)

  function LastAcked(claim: Acked, w: World, ms: seq<Moment>, t: Tenure, last: int): Acked
    requires -1 <= last < |ms| && (last >= 0 ==> ms[last].Acknowledged?)
  {
    if last < 0 then claim else Acked(ms[last].startUs, Run(w, StepsOf(ms, t)[..last]).nowUs)
  }

  lemma ExpiryOfLastAcked(limit: nat, w: World, claim: Acked, ms: seq<Moment>, t: Tenure, last: int)
    requires 1 <= limit && Consistent(limit, w) && t.lease in w.issued && DeadlinePossible(limit, w, ms, t)
    requires Has(w.store, t) ==> w.store.states[t.id].leaseExpiresMs == claim.runUs / 1000 + t.leaseMs
    requires LastHeard(w, ms, t, last)
    requires forall i :: last < i < |ms| ==> !RenewsAt(w, StepsOf(ms, t), t, i)
    requires Has(Run(w, StepsOf(ms, t)).store, t)
    ensures Run(w, StepsOf(ms, t)).store.states[t.id].leaseExpiresMs == LastAcked(claim, w, ms, t, last).runUs / 1000 + t.leaseMs
  {
    StepsPossible(limit, w, ms, t);
    if last < 0 {
      ExpiryStays(limit, w, StepsOf(ms, t), t);
    } else {
      ExpiryOfLastRenewal(limit, w, StepsOf(ms, t), t, last);
    }
  }

  lemma FlooredApart(expires: int, deadlineUs: int, call: Acked, leaseMs: nat)
    requires expires == call.runUs / 1000 + leaseMs && deadlineUs == call.beginUs + leaseMs * 1000
    ensures expires * 1000 - deadlineUs == (call.runUs - call.beginUs) - call.runUs % 1000
  {
  }

  /** Where deadline and expiry stand after the last acknowledged call. */
  predicate Stand(w: World, deadlineUs: int, call: Acked, t: Tenure) {
    && Has(w.store, t)
    && deadlineUs == call.beginUs + t.leaseMs * 1000
    && w.store.states[t.id].leaseExpiresMs == call.runUs / 1000 + t.leaseMs
  }

  lemma DeadlineStands(limit: nat, w: World, claim: Acked, ms: seq<Moment>, t: Tenure, last: int)
    requires 1 <= limit && Consistent(limit, w) && t.lease in w.issued && DeadlinePossible(limit, w, ms, t)
    requires Has(w.store, t) ==> w.store.states[t.id].leaseExpiresMs == claim.runUs / 1000 + t.leaseMs
    requires LastHeard(w, ms, t, last)
    requires forall i :: last < i < |ms| ==> !RenewsAt(w, StepsOf(ms, t), t, i)
    requires Has(Run(w, StepsOf(ms, t)).store, t)
    ensures var (w', deadline') := DeadlineRun(w, claim.beginUs + t.leaseMs * 1000, ms, t);
            Stand(w', deadline', LastAcked(claim, w, ms, t, last), t)
  {
    var call := LastAcked(claim, w, ms, t, last);
    DeadlineSinceAcked(w, claim, ms, t, last);
    ExpiryOfLastAcked(limit, w, claim, ms, t, last);
    assert Stand(Run(w, StepsOf(ms, t)), call.beginUs + t.leaseMs * 1000, call, t);
  }

  lemma DeadlineSinceAcked(w: World, claim: Acked, ms: seq<Moment>, t: Tenure, last: int)
    requires LastHeard(w, ms, t, last)
    ensures DeadlineRun(w, claim.beginUs + t.leaseMs * 1000, ms, t)
         == (Run(w, StepsOf(ms, t)), LastAcked(claim, w, ms, t, last).beginUs + t.leaseMs * 1000)
  {
    DeadlineIsLastHeard(w, claim.beginUs + t.leaseMs * 1000, ms, t, last);
  }

  /** If no call after the last acknowledged one has renewed the lease, a lease still held runs out in Redis
      after the local deadline by just the time that call took to get there, less the microseconds that TIME is
      floored by: at most that one latency later, at most 999 microseconds sooner. */
  lemma DeadlineExact(limit: nat, w: World, claim: Acked, ms: seq<Moment>, t: Tenure, last: int)
    requires 1 <= limit && Consistent(limit, w) && t.lease in w.issued && DeadlinePossible(limit, w, ms, t)
    requires Has(w.store, t) ==> w.store.states[t.id].leaseExpiresMs == claim.runUs / 1000 + t.leaseMs
    requires LastHeard(w, ms, t, last)
    requires forall i :: last < i < |ms| ==> !RenewsAt(w, StepsOf(ms, t), t, i)
    requires Has(Run(w, StepsOf(ms, t)).store, t)
    ensures var (w', deadline') := DeadlineRun(w, claim.beginUs + t.leaseMs * 1000, ms, t);
            var call := LastAcked(claim, w, ms, t, last);
            && deadline' == call.beginUs + t.leaseMs * 1000
            && Has(w'.store, t)
            && w'.store.states[t.id].leaseExpiresMs * 1000 - deadline' == (call.runUs - call.beginUs) - call.runUs % 1000
  {
    DeadlineStands(limit, w, claim, ms, t, last);
    var (w', deadline') := DeadlineRun(w, claim.beginUs + t.leaseMs * 1000, ms, t);
    FlooredApart(w'.store.states[t.id].leaseExpiresMs, deadline', LastAcked(claim, w, ms, t, last), t.leaseMs);
  }

  /** The 999 microseconds do occur: with every call run by Redis in the microsecond it is begun, at a clock that
      ends in 999, after the claim and after a heartbeat alike. */
  lemma DeadlineBoundIsTight(limit: nat, w: World, t: Tenure)
    requires 1 <= limit && Consistent(limit, w) && t.lease !in w.issued && w.store.queue != [] && w.store.queue[0] == t.id
    requires w.nowUs % 1000 == 999 && 1 <= t.leaseMs
    ensures var claimed := Apply(w, DoClaim(t.worker, t.lease, t.leaseMs));
            var (w1, d1) := DeadlineRun(claimed, w.nowUs + t.leaseMs * 1000, [], t);
            var (w2, d2) := DeadlineRun(claimed, w.nowUs + t.leaseMs * 1000, [Acknowledged(w.nowUs)], t);
            && Has(w1.store, t) && d1 - w1.store.states[t.id].leaseExpiresMs * 1000 == 999
            && Has(w2.store, t) && d2 - w2.store.states[t.id].leaseExpiresMs * 1000 == 999
  {
    var claimed := Apply(w, DoClaim(t.worker, t.lease, t.leaseMs));
    ClaimTakesHead(limit, w, t.worker, t.lease, w.Now() + t.leaseMs);
    Floored(w.nowUs);
    AcceptedExactlyWhen(claimed, BeatOf(t));
    AcceptedWrites(claimed, BeatOf(t));
    var ms := [Acknowledged(w.nowUs)];
    var (w', d') := DeadlineStep(claimed, w.nowUs + t.leaseMs * 1000, ms[0], t);
    assert ms[1..] == [] && DeadlineRun(w', d', [], t) == (w', d');
  }
}
