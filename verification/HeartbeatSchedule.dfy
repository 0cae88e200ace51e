/** When the worker renews its lease: the two heartbeat intervals of `send_request` and `prove_claim`,
    how far apart they let two renewals lie, and for which settings every lease survives. Times are in
    microseconds on one axis with the Redis clock. */
module HeartbeatSchedule {
  import opened Wrappers
  import opened ProofProtocol
  import opened LeaseQueue
  import opened LeaseQueueInvariant
  import opened LeaseQueueRuns
  import opened LeaseTime
  import ExpirySweep

  const WRITE_TIMEOUT_US: nat := 30_000_000
  const EXIT_WAIT_US: nat := 5_000_000
  const DEFAULT_LEASE_MS: nat := 120_000
  const DEFAULT_HEARTBEAT_MS: nat := 30_000

  /** Up to which report a lease is to last: `Proofs` leaves out the one that follows a broken pipe, for which
      the worker first waits for the daemon to exit. */
  datatype Scope = Proofs | EveryReport

  /** The two lengths `Args::validate` compares, and how slow the surroundings may be: `callUs` bounds a
      call of Redis with all its retries, from its start to the worker being back from it, and `pollUs`
      how late the worker notices that what it awaits is ready. */
  datatype Setting = Setting(leaseMs: nat, heartbeatMs: nat, callUs: nat, pollUs: nat) {
    /** `Args::validate`. */
    predicate Validated() { leaseMs != 0 && heartbeatMs != 0 && heartbeatMs < leaseMs }

    function PeriodUs(): nat { heartbeatMs * 1000 }

    /** The longest a renewal can be the last one while the request is being written. */
    function WriteGapUs(): nat {
      Max(ExpirySweep.Min(PeriodUs(), WRITE_TIMEOUT_US), callUs) + pollUs
    }

    /** The longest it can be the last one before the worker turns to a call or to stopping the daemon. */
    function NoticeGapUs(): nat { WriteGapUs() + PeriodUs() + pollUs }

    /** `bounded_shutdown`, which sends no heartbeat. */
    function ShutdownUs(): nat { EXIT_WAIT_US + pollUs }

    /** The largest gap between two renewals, or between the last one and the worker's report. */
    function LargestGapUs(scope: Scope): nat {
      NoticeGapUs() + (if scope.EveryReport? then ShutdownUs() else 0) + callUs
    }
  }

  /** Where the worker is with its claim: not yet writing; in the loop of `send_request`, since when and with
      its next tick due; in the loop that waits for the response; waiting for a daemon to exit whose answer
      could not be read; reporting the outcome; or done. */
  datatype Spell =
    | Preparing
    | Writing(openedUs: nat, dueUs: nat)
    | Waiting(dueUs: nat)
    | Stopping(sinceUs: nat)
    | Reporting(sinceUs: nat, afterStopping: bool)
    | Done

  /** The lease is to last through this. */
  predicate Counts(scope: Scope, spell: Spell) {
    match spell
    case Stopping(_) => scope.EveryReport?
    case Reporting(_, afterStopping) => scope.EveryReport? || !afterStopping
    case Done => false
    case _ => true
  }

  /** `beatUs` is when Redis last renewed the lease, `backUs` by when the worker is back from its last call. */
  datatype Pace = Pace(beatUs: nat, backUs: nat, spell: Spell)

  datatype Turn =
    | Meanwhile(e: Event)                    // time, and steps of others
    | Open                                   // `send_request` creates its interval; the first tick is due at once
    | Beat(seenUs: nat, nextUs: nat)         // a tick noticed at `seenUs`, its heartbeat run by Redis now
    | WriteDone                              // a fresh interval, whose first tick is taken at once
    | Stop                                   // a response, or any failure but the next, ends the attempt
    | Break                                  // the response cannot be read: `protocol_failure`
    | Stopped                                // the daemon has exited, or has been waited for long enough
    | Report(e: Event)                       // COMPLETE or FINISH_ERROR, run by Redis now

  /** By when the worker notices what it is waiting for. */
  function NoticedBy(s: Setting, p: Pace): nat {
    match p.spell
    case Preparing => p.backUs
    case Writing(since, due) => Max(ExpirySweep.Min(due, since + WRITE_TIMEOUT_US), p.backUs) + s.pollUs
    case Waiting(due) => Max(due, p.backUs) + s.pollUs
    case Stopping(since) => since + s.ShutdownUs()
    case Reporting(since, _) => since
    case Done => 0
  }

  /** By when Redis has run the call that follows, if one does. */
  function RunBy(s: Setting, p: Pace): nat {
    NoticedBy(s, p) + if p.spell.Preparing? || p.spell.Stopping? then 0 else s.callUs
  }

  /** The world, and where the worker is in its schedule. */
  datatype Course = Course(world: World, pace: Pace)

  ghost predicate TurnEnabled(limit: nat, s: Setting, t: Tenure, c: Course, turn: Turn) {
    var w, p := c.world, c.pace;
    match turn
    case Meanwhile(e) =>
      Enabled(limit, w, e) && !CallsFor(e, t) && (p.spell.Done? || Apply(w, e).nowUs <= RunBy(s, p))
    case Open => p.spell.Preparing? && w.nowUs <= NoticedBy(s, p)
    case Beat(seen, next) =>
      && (p.spell.Writing? || p.spell.Waiting?)
      && p.spell.dueUs <= seen <= NoticedBy(s, p) && seen <= w.nowUs <= seen + s.callUs
      && p.spell.dueUs + s.PeriodUs() <= next <= seen + s.PeriodUs()
    case WriteDone => p.spell.Writing? && w.nowUs <= NoticedBy(s, p)
    case Stop => (p.spell.Preparing? || p.spell.Writing? || p.spell.Waiting?) && w.nowUs <= NoticedBy(s, p)
    case Break => p.spell.Waiting? && w.nowUs <= NoticedBy(s, p)
    case Stopped => p.spell.Stopping? && w.nowUs <= NoticedBy(s, p)
    case Report(e) => p.spell.Reporting? && Enabled(limit, w, e) && CallsFor(e, t) && !e.DoHeartbeat?
  }

  function TurnStep(s: Setting, t: Tenure, c: Course, turn: Turn): Course {
    var w, p := c.world, c.pace;
    match turn
    case Meanwhile(e) => Course(Apply(w, e), p)
    case Open => Course(w, Pace(p.beatUs, w.nowUs, Writing(w.nowUs, w.nowUs)))
    case Beat(seen, next) =>
      Course(Apply(w, BeatOf(t)),
             Pace(w.nowUs, seen + s.callUs, if p.spell.Writing? then p.spell.(dueUs := next) else Waiting(next)))
    case WriteDone => Course(w, Pace(p.beatUs, w.nowUs, Waiting(w.nowUs + s.PeriodUs())))
    case Stop => Course(w, Pace(p.beatUs, w.nowUs, Reporting(w.nowUs, false)))
    case Break => Course(w, Pace(p.beatUs, w.nowUs, Stopping(w.nowUs)))
    case Stopped => Course(w, Pace(p.beatUs, w.nowUs, Reporting(w.nowUs, true)))
    case Report(e) => Course(Apply(w, e), p.(spell := Done))
  }

  /** These turns lead from `c` to `d`. */
  ghost predicate TurnsLead(limit: nat, s: Setting, t: Tenure, c: Course, turns: seq<Turn>, d: Course)
    decreases |turns|
  {
    if turns == [] then c == d
    else TurnEnabled(limit, s, t, c, turns[0]) && TurnsLead(limit, s, t, TurnStep(s, t, c, turns[0]), turns[1..], d)
  }

  /** Some schedule leads from `c` to `d`. */
  ghost predicate ComesTo(limit: nat, s: Setting, t: Tenure, c: Course, d: Course) {
    exists turns :: TurnsLead(limit, s, t, c, turns, d)
  }

  /** The course after a CLAIM that Redis has just run. */
  function Begun(s: Setting, w: World): Course { Course(w, Pace(w.nowUs, w.nowUs + s.callUs, Preparing)) }

  // ---------------------------------------------------------------- the largest gap

  /** How far past the last renewal the worker can be before it notices something. */
  function NoticeGapUs(s: Setting, spell: Spell): nat {
    match spell
    case Preparing => s.callUs
    case Writing(_, _) => s.WriteGapUs()
    case Stopping(_) => s.NoticeGapUs() + s.ShutdownUs()
    case Reporting(_, afterStopping) => s.NoticeGapUs() + if afterStopping then s.ShutdownUs() else 0
    case _ => s.NoticeGapUs()
  }

  predicate PaceOk(s: Setting, c: Course) {
    var w, p := c.world, c.pace;
    && p.beatUs <= w.nowUs
    && (p.spell.Writing? ==> p.spell.openedUs <= w.nowUs)
    && (!p.spell.Done? ==> w.nowUs <= RunBy(s, p) && NoticedBy(s, p) <= p.beatUs + NoticeGapUs(s, p.spell))
  }

  lemma ClockForward(w: World, e: Event)
    ensures w.nowUs <= Apply(w, e).nowUs
    ensures !e.Tick? ==> w.nowUs == Apply(w, e).nowUs
  {
  }

  lemma BeatKept(limit: nat, s: Setting, t: Tenure, c: Course, turn: Turn)
    requires PaceOk(s, c) && turn.Beat? && TurnEnabled(limit, s, t, c, turn)
    ensures PaceOk(s, TurnStep(s, t, c, turn))
  {
    ClockForward(c.world, BeatOf(t));
  }

  lemma PaceKept(limit: nat, s: Setting, t: Tenure, c: Course, turn: Turn)
    requires PaceOk(s, c) && TurnEnabled(limit, s, t, c, turn)
    ensures PaceOk(s, TurnStep(s, t, c, turn))
  {
    match turn
    case Meanwhile(e) => ClockForward(c.world, e);
    case Beat(_, _) => BeatKept(limit, s, t, c, turn);
    case Report(e) => ClockForward(c.world, e);
    case _ =>
  }

  /** Two renewals never lie further apart than this, nor does a report lie further after the last. */
  lemma GapBounded(scope: Scope, s: Setting, c: Course)
    requires PaceOk(s, c) && Counts(scope, c.pace.spell)
    ensures c.world.nowUs - c.pace.beatUs <= s.LargestGapUs(scope)
  {
  }

  // ---------------------------------------------------------------- every lease survives

  predicate Underway(scope: Scope, s: Setting, t: Tenure, attempt: nat, c: Course) {
    PaceOk(s, c) && (Counts(scope, c.pace.spell) ==> ClaimedSince(c.world.store, t, attempt, c.pace.beatUs))
  }

  lemma HoldsUnderway(limit: nat, scope: Scope, s: Setting, t: Tenure, attempt: nat, c: Course)
    requires Consistent(limit, c.world) && Underway(scope, s, t, attempt, c) && Counts(scope, c.pace.spell)
    requires 1 <= t.leaseMs && s.LargestGapUs(scope) < FirstUnsafeGap(t.leaseMs)
    ensures HoldsFor(c.world, t) && c.pace.beatUs <= c.world.nowUs < c.pace.beatUs + FirstUnsafeGap(t.leaseMs)
  {
    GapBounded(scope, s, c);
    HoldsWhileRenewed(limit, c.world, t, attempt, c.pace.beatUs);
  }

  /** The event a turn is. */
  function TurnEvent(t: Tenure, turn: Turn): Option<Event> {
    match turn
    case Meanwhile(e) => Some(e)
    case Beat(_, _) => Some(BeatOf(t))
    case Report(e) => Some(e)
    case _ => None
  }

  lemma TurnWorld(limit: nat, s: Setting, t: Tenure, c: Course, turn: Turn)
    requires 1 <= limit && Consistent(limit, c.world) && TurnEnabled(limit, s, t, c, turn)
    ensures var e := TurnEvent(t, turn);
            && (e.Some? ==> Enabled(limit, c.world, e.value))
            && TurnStep(s, t, c, turn).world == (if e.Some? then Apply(c.world, e.value) else c.world)
    ensures Consistent(limit, TurnStep(s, t, c, turn).world)
  {
    if TurnEvent(t, turn).Some? { StepKeeps(limit, c.world, TurnEvent(t, turn).value); }
  }

  lemma TurnKeeps(limit: nat, scope: Scope, s: Setting, t: Tenure, attempt: nat, c: Course, turn: Turn)
    requires 1 <= limit && Consistent(limit, c.world) && TurnEnabled(limit, s, t, c, turn)
    requires 1 <= t.leaseMs && s.LargestGapUs(scope) < FirstUnsafeGap(t.leaseMs)
    requires Underway(scope, s, t, attempt, c)
    ensures Consistent(limit, TurnStep(s, t, c, turn).world)
    ensures Underway(scope, s, t, attempt, TurnStep(s, t, c, turn))
    ensures turn.Report? && Counts(scope, c.pace.spell) ==> Reply(c.world, turn.e) != 0
  {
    PaceKept(limit, s, t, c, turn);
    TurnWorld(limit, s, t, c, turn);
    if Counts(scope, c.pace.spell) {
      HoldsUnderway(limit, scope, s, t, attempt, c);
      if turn.Meanwhile? || turn.Beat? {
        RenewedStep(limit, c.world, TurnEvent(t, turn).value, t, attempt, c.pace.beatUs);
      }
    }
  }

  /** The holder has its lease wherever it is to last. */
  predicate Kept(scope: Scope, t: Tenure, c: Course) { Counts(scope, c.pace.spell) ==> HoldsFor(c.world, t) }

  lemma {:induction false} TurnsKeep(limit: nat, scope: Scope, s: Setting, t: Tenure, attempt: nat, c: Course,
                                     turns: seq<Turn>, d: Course)
    requires 1 <= limit && Consistent(limit, c.world) && TurnsLead(limit, s, t, c, turns, d)
    requires 1 <= t.leaseMs && s.LargestGapUs(scope) < FirstUnsafeGap(t.leaseMs)
    requires Underway(scope, s, t, attempt, c)
    ensures Consistent(limit, d.world) && Underway(scope, s, t, attempt, d) && Kept(scope, t, d)
    decreases |turns|
  {
    if turns == [] {
      if Counts(scope, c.pace.spell) {
        GapBounded(scope, s, c);
        HoldsWhileRenewed(limit, c.world, t, attempt, c.pace.beatUs);
      }
    } else {
      TurnKeeps(limit, scope, s, t, attempt, c, turns[0]);
      TurnsKeep(limit, scope, s, t, attempt, TurnStep(s, t, c, turns[0]), turns[1..], d);
    }
  }

  /** A claim that just succeeded in `w`, and what it gives the worker. */
  predicate JustClaimed(s: Setting, w: World, t: Tenure, attempt: nat) {
    t.leaseMs == s.leaseMs && ClaimedSince(w.store, t, attempt, w.nowUs)
  }

  /** From any reachable store in which the worker has just claimed, along every schedule it can follow and
      whatever everyone else does, the lease is the worker's until it has reported: until every report, or
      until every one that does not follow a broken pipe. */
  ghost predicate EveryLeaseSurvives(limit: nat, scope: Scope, s: Setting) {
    forall w, t: Tenure, attempt: nat, d ::
      Reachable(limit, w) && JustClaimed(s, w, t, attempt) && ComesTo(limit, s, t, Begun(s, w), d) ==> Kept(scope, t, d)
  }

  // ---------------------------------------------------------------- the schedule that loses

  lemma {:induction false} OneMoreTurn(limit: nat, s: Setting, t: Tenure, c: Course, turns: seq<Turn>, d: Course, turn: Turn)
    requires TurnsLead(limit, s, t, c, turns, d) && TurnEnabled(limit, s, t, d, turn)
    ensures TurnsLead(limit, s, t, c, turns + [turn], TurnStep(s, t, d, turn))
    decreases |turns|
  {
    if turns == [] {
      assert (turns + [turn])[1..] == [];
    } else {
      assert (turns + [turn])[1..] == turns[1..] + [turn];
      OneMoreTurn(limit, s, t, TurnStep(s, t, c, turns[0]), turns[1..], d, turn);
    }
  }

  lemma ComesFurther(limit: nat, s: Setting, t: Tenure, c: Course, d: Course, turn: Turn)
    requires ComesTo(limit, s, t, c, d) && TurnEnabled(limit, s, t, d, turn)
    ensures ComesTo(limit, s, t, c, TurnStep(s, t, d, turn))
  {
    var turns :| TurnsLead(limit, s, t, c, turns, d);
    OneMoreTurn(limit, s, t, c, turns, d, turn);
  }

  lemma RenewedAtOnce(payload: Payload, leaseMs: nat)
    requires 1 <= leaseMs
    ensures var w := ClaimedAlone(payload, 999, leaseMs); Apply(w, BeatOf(HolderAlone(leaseMs))) == w
  {
    var w := ClaimedAlone(payload, 999, leaseMs);
    assert Holds(w.store, "job", "worker", "lease", w.Now());
    assert w.store.states["job" := Claimed("worker", "lease", leaseMs, 1)] == w.store.states;
    assert w.store.leases["job" := leaseMs] == w.store.leases;
  }

  /** Claimed, opened, and the first heartbeat run at once, in the same microsecond. */
  function WritingAlone(s: Setting, payload: Payload): Course {
    Course(ClaimedAlone(payload, 999, s.leaseMs), Pace(999, 999 + s.callUs, Writing(999, 999 + s.PeriodUs())))
  }

  lemma WritingReached(limit: nat, s: Setting, payload: Payload)
    requires 1 <= s.leaseMs
    ensures ComesTo(limit, s, HolderAlone(s.leaseMs), Begun(s, ClaimedAlone(payload, 999, s.leaseMs)), WritingAlone(s, payload))
  {
    var w, t := ClaimedAlone(payload, 999, s.leaseMs), HolderAlone(s.leaseMs);
    var c, d := Begun(s, w), Course(w, Pace(999, 999, Writing(999, 999)));
    RenewedAtOnce(payload, s.leaseMs);
    assert TurnsLead(limit, s, t, c, [], c);
    ComesFurther(limit, s, t, c, c, Open);
    assert TurnStep(s, t, c, Open) == d;
    ComesFurther(limit, s, t, c, d, Beat(999, 999 + s.PeriodUs()));
  }

  /** ... the write having ended `writeUs` later, and the fresh interval run on to `gapUs`. */
  function WaitingAlone(s: Setting, payload: Payload, writeUs: nat, gapUs: nat): Course {
    Course(ClaimedLate(payload, s.leaseMs, gapUs), Pace(999, 999 + writeUs, Waiting(999 + writeUs + s.PeriodUs())))
  }

  lemma WriteEnds(limit: nat, s: Setting, payload: Payload, writeUs: nat)
    requires 1 <= s.leaseMs && writeUs <= s.WriteGapUs()
    ensures ComesTo(limit, s, HolderAlone(s.leaseMs), Begun(s, ClaimedAlone(payload, 999, s.leaseMs)),
                    WaitingAlone(s, payload, writeUs, writeUs))
  {
    var t, start := HolderAlone(s.leaseMs), Begun(s, ClaimedAlone(payload, 999, s.leaseMs));
    var c := WritingAlone(s, payload);
    var d := Course(ClaimedLate(payload, s.leaseMs, writeUs), c.pace);
    WritingReached(limit, s, payload);
    assert NoticedBy(s, c.pace) == 999 + s.WriteGapUs();
    ComesFurther(limit, s, t, start, c, Meanwhile(Tick(writeUs)));
    assert TurnStep(s, t, c, Meanwhile(Tick(writeUs))) == d;
    ComesFurther(limit, s, t, start, d, WriteDone);
  }

  /** A write that ends as late as it can before the next tick, and a fresh interval run to its end. */
  lemma WaitingReached(limit: nat, s: Setting, payload: Payload, gapUs: nat)
    requires 1 <= s.leaseMs && gapUs <= s.NoticeGapUs() + s.callUs
    ensures var writeUs := ExpirySweep.Min(gapUs, s.WriteGapUs());
            ComesTo(limit, s, HolderAlone(s.leaseMs), Begun(s, ClaimedAlone(payload, 999, s.leaseMs)),
                    WaitingAlone(s, payload, writeUs, gapUs))
  {
    var t, start := HolderAlone(s.leaseMs), Begun(s, ClaimedAlone(payload, 999, s.leaseMs));
    var writeUs := ExpirySweep.Min(gapUs, s.WriteGapUs());
    WriteEnds(limit, s, payload, writeUs);
    ComesFurther(limit, s, t, start, WaitingAlone(s, payload, writeUs, writeUs), Meanwhile(Tick(gapUs - writeUs)));
  }

  /** ... the response then unreadable at `breakUs`, the daemon waited for until `stopUs`, and the report
      under way at `gapUs`. */
  function ReportingAlone(s: Setting, payload: Payload, stopUs: nat, gapUs: nat): Course {
    Course(ClaimedLate(payload, s.leaseMs, gapUs), Pace(999, 999 + stopUs, Reporting(999 + stopUs, true)))
  }

  lemma ReportingReached(limit: nat, s: Setting, payload: Payload, gapUs: nat)
    requires 1 <= s.leaseMs && gapUs <= s.LargestGapUs(EveryReport)
    ensures var stopUs := ExpirySweep.Min(gapUs, s.NoticeGapUs() + s.ShutdownUs());
            ComesTo(limit, s, HolderAlone(s.leaseMs), Begun(s, ClaimedAlone(payload, 999, s.leaseMs)),
                    ReportingAlone(s, payload, stopUs, gapUs))
  {
    var t, start := HolderAlone(s.leaseMs), Begun(s, ClaimedAlone(payload, 999, s.leaseMs));
    var breakUs := ExpirySweep.Min(gapUs, s.NoticeGapUs());
    var stopUs := ExpirySweep.Min(gapUs, s.NoticeGapUs() + s.ShutdownUs());
    var c := WaitingAlone(s, payload, ExpirySweep.Min(breakUs, s.WriteGapUs()), breakUs);
    WaitingReached(limit, s, payload, breakUs);
    BreakInTime(s, payload, breakUs);
    ComesFurther(limit, s, t, start, c, Break);
    StoppingReached(limit, s, payload, start, breakUs, stopUs);
    var d := ReportingAlone(s, payload, stopUs, stopUs);
    ComesFurther(limit, s, t, start, d, Meanwhile(Tick(gapUs - stopUs)));
    assert TurnStep(s, t, d, Meanwhile(Tick(gapUs - stopUs))) == ReportingAlone(s, payload, stopUs, gapUs);
  }

  lemma BreakInTime(s: Setting, payload: Payload, breakUs: nat)
    requires 1 <= s.leaseMs && breakUs <= s.NoticeGapUs()
    ensures var c := WaitingAlone(s, payload, ExpirySweep.Min(breakUs, s.WriteGapUs()), breakUs);
            c.world.nowUs <= NoticedBy(s, c.pace)
  {
  }

  lemma StoppingReached(limit: nat, s: Setting, payload: Payload, start: Course, breakUs: nat, stopUs: nat)
    requires 1 <= s.leaseMs && breakUs <= stopUs <= breakUs + s.ShutdownUs()
    requires ComesTo(limit, s, HolderAlone(s.leaseMs), start,
                     Course(ClaimedLate(payload, s.leaseMs, breakUs), Pace(999, 999 + breakUs, Stopping(999 + breakUs))))
    ensures ComesTo(limit, s, HolderAlone(s.leaseMs), start, ReportingAlone(s, payload, stopUs, stopUs))
  {
    var t, pace := HolderAlone(s.leaseMs), Pace(999, 999 + breakUs, Stopping(999 + breakUs));
    var c, d := Course(ClaimedLate(payload, s.leaseMs, breakUs), pace), Course(ClaimedLate(payload, s.leaseMs, stopUs), pace);
    ComesFurther(limit, s, t, start, c, Meanwhile(Tick(stopUs - breakUs)));
    assert TurnStep(s, t, c, Meanwhile(Tick(stopUs - breakUs))) == d;
    ComesFurther(limit, s, t, start, d, Stopped);
  }

  /** The worker really can be that late: some schedule reaches every gap up to the largest. */
  lemma GapReached(limit: nat, scope: Scope, s: Setting, payload: Payload, gapUs: nat)
    requires 1 <= s.leaseMs && gapUs <= s.LargestGapUs(scope)
    ensures exists c :: && ComesTo(limit, s, HolderAlone(s.leaseMs), Begun(s, ClaimedAlone(payload, 999, s.leaseMs)), c)
                        && c.world == ClaimedLate(payload, s.leaseMs, gapUs) && Counts(scope, c.pace.spell)
                        && (if scope.Proofs? then c.pace.spell.Waiting? else c.pace.spell.Reporting?)
  {
    if scope.Proofs? {
      WaitingReached(limit, s, payload, gapUs);
      assert Counts(scope, WaitingAlone(s, payload, ExpirySweep.Min(gapUs, s.WriteGapUs()), gapUs).pace.spell);
    } else {
      ReportingReached(limit, s, payload, gapUs);
      assert Counts(scope, ReportingAlone(s, payload, ExpirySweep.Min(gapUs, s.NoticeGapUs() + s.ShutdownUs()), gapUs).pace.spell);
    }
  }

  // ---------------------------------------------------------------- exactly when

  /** Every lease of every run survives if and only if the largest gap is at most one millisecond less
      than the lease. */
  lemma SurvivesExactlyWhen(limit: nat, scope: Scope, s: Setting)
    requires 1 <= limit && 1 <= s.leaseMs
    ensures EveryLeaseSurvives(limit, scope, s) <==> s.LargestGapUs(scope) < FirstUnsafeGap(s.leaseMs)
  {
    if s.LargestGapUs(scope) < FirstUnsafeGap(s.leaseMs) {
      forall w, t: Tenure, attempt: nat, d |
        Reachable(limit, w) && JustClaimed(s, w, t, attempt) && ComesTo(limit, s, t, Begun(s, w), d)
        ensures Kept(scope, t, d)
      {
        ReachableConsistent(limit, w);
        var turns :| TurnsLead(limit, s, t, Begun(s, w), turns, d);
        TurnsKeep(limit, scope, s, t, attempt, Begun(s, w), turns, d);
      }
    } else {
      var gap := FirstUnsafeGap(s.leaseMs);
      var w, t := ClaimedAlone(NotJson(""), 999, s.leaseMs), HolderAlone(s.leaseMs);
      ClaimedAloneReachable(limit, NotJson(""), 999, s.leaseMs);
      GapReached(limit, scope, s, NotJson(""), gap);
      assert JustClaimed(s, w, t, 1);
      assert !HoldsFor(ClaimedLate(NotJson(""), s.leaseMs, gap), t);
    }
  }

  /** Along a schedule whose largest gap is that small, the worker's report is accepted. */
  lemma ReportIsAccepted(limit: nat, scope: Scope, s: Setting, t: Tenure, attempt: nat, w: World, c: Course, report: Event)
    requires 1 <= limit && 1 <= s.leaseMs && s.LargestGapUs(scope) < FirstUnsafeGap(s.leaseMs)
    requires Reachable(limit, w) && JustClaimed(s, w, t, attempt) && ComesTo(limit, s, t, Begun(s, w), c)
    requires TurnEnabled(limit, s, t, c, Report(report)) && Counts(scope, c.pace.spell)
    ensures Reply(c.world, report) != 0
  {
    ReachableConsistent(limit, w);
    var turns :| TurnsLead(limit, s, t, Begun(s, w), turns, c);
    TurnsKeep(limit, scope, s, t, attempt, Begun(s, w), turns, c);
    TurnKeeps(limit, scope, s, t, attempt, c, Report(report));
  }

  /** Without any latency: every lease survives until a proof is reported if and only if the heartbeat plus
      the shorter of heartbeat and write timeout is less than the lease; and until every report if and only if
      that is so with the five seconds of the exit wait added. `Args::validate` only asks for the heartbeat. */
  lemma SurvivesWithoutLatency(limit: nat, s: Setting)
    requires 1 <= limit && 1 <= s.leaseMs && s.callUs == s.pollUs == 0
    ensures EveryLeaseSurvives(limit, Proofs, s) <==> s.heartbeatMs + ExpirySweep.Min(s.heartbeatMs, 30_000) < s.leaseMs
    ensures EveryLeaseSurvives(limit, EveryReport, s) <==>
              s.heartbeatMs + ExpirySweep.Min(s.heartbeatMs, 30_000) + 5_000 < s.leaseMs
  {
    SurvivesExactlyWhen(limit, Proofs, s);
    SurvivesExactlyWhen(limit, EveryReport, s);
  }

  /** Which of the settings that `Args::validate` accepts can lose a lease before a proof is reported, even without any
      latency: exactly those whose heartbeat is shorter than the lease, but not by as much as the shorter of
      itself and the write timeout. */
  lemma ValidatedLosesExactlyWhen(limit: nat, s: Setting)
    requires 1 <= limit && s.callUs == s.pollUs == 0
    ensures s.Validated() && !EveryLeaseSurvives(limit, Proofs, s) <==>
              1 <= s.heartbeatMs < s.leaseMs <= s.heartbeatMs + (if s.heartbeatMs < 30_000 then s.heartbeatMs else 30_000)
  {
    if s.leaseMs >= 1 { SurvivesWithoutLatency(limit, s); }
  }

  predicate FailedIn(s: Store, id: string) { id in s.states && s.states[id].Failed? }

  /** From a claim under these settings some schedule comes to a spell in which any other worker's sweep fails
      the job under its holder. */
  ghost predicate CanLose(limit: nat, s: Setting, w: World, waiting: bool) {
    exists d :: && ComesTo(limit, s, HolderAlone(s.leaseMs), Begun(s, w), d)
                && (if waiting then d.pace.spell.Waiting? else d.pace.spell.Reporting?)
                && Enabled(limit, d.world, DoSweep(["job"], 64, 1))
                && FailedIn(Apply(d.world, DoSweep(["job"], 64, 1)).store, "job")
  }

  lemma LosesAt(limit: nat, scope: Scope, s: Setting, job: ProofJob)
    requires 1 <= limit && 1 <= s.leaseMs && FirstUnsafeGap(s.leaseMs) <= s.LargestGapUs(scope)
    ensures Reachable(limit, ClaimedAlone(Job(job), 999, s.leaseMs))
    ensures CanLose(limit, s, ClaimedAlone(Job(job), 999, s.leaseMs), scope.Proofs?)
  {
    ClaimedAloneReachable(limit, Job(job), 999, s.leaseMs);
    GapReached(limit, scope, s, Job(job), FirstUnsafeGap(s.leaseMs));
    LateRenewalLosesTheJob(limit, s.leaseMs, job);
  }

  /** The check of `Args::validate` is not enough: for every lease of two milliseconds or more there is a
      heartbeat it accepts with which, even without latency, a slow write loses the lease to another
      worker's sweep while the holder is still waiting for its proof. */
  lemma ValidatedCanLose(limit: nat, leaseMs: nat, job: ProofJob)
    requires 1 <= limit && 2 <= leaseMs
    ensures var (s, w) := (Setting(leaseMs, leaseMs - 1, 0, 0), ClaimedAlone(Job(job), 999, leaseMs));
            s.Validated() && Reachable(limit, w) && CanLose(limit, s, w, true)
  {
    LosesAt(limit, Proofs, Setting(leaseMs, leaseMs - 1, 0, 0), job);
  }

  /** Nor are renewals often enough for every proof often enough for every report: with a lease of 61 seconds,
      a heartbeat of 30 and no latency, no lease is lost before a proof is reported; but a slow write, a pipe
      that breaks at the end of the fresh interval and a daemon slow to exit let a sweep take the job before
      FINISH_ERROR runs. */
  lemma ExitWaitCanLose(limit: nat, job: ProofJob)
    requires 1 <= limit
    ensures var (s, w) := (Setting(61_000, 30_000, 0, 0), ClaimedAlone(Job(job), 999, 61_000));
            && s.Validated() && EveryLeaseSurvives(limit, Proofs, s)
            && Reachable(limit, w) && CanLose(limit, s, w, false)
  {
    var s := Setting(61_000, 30_000, 0, 0);
    SurvivesWithoutLatency(limit, s);
    LosesAt(limit, EveryReport, s, job);
  }

  /** With the default lease and heartbeat every lease survives exactly while the latencies leave it: the
      longer of a call and the 30 seconds of a write, plus that call, plus twice the polling delay, stay
      below a minute and a half; for the report after a broken pipe five seconds and one more delay less. */
  lemma DefaultsSurviveExactlyWhen(limit: nat, callUs: nat, pollUs: nat)
    requires 1 <= limit
    ensures EveryLeaseSurvives(limit, Proofs, Setting(DEFAULT_LEASE_MS, DEFAULT_HEARTBEAT_MS, callUs, pollUs)) <==>
              Max(30_000_000, callUs) + callUs + 2 * pollUs <= 89_999_000
    ensures EveryLeaseSurvives(limit, EveryReport, Setting(DEFAULT_LEASE_MS, DEFAULT_HEARTBEAT_MS, callUs, pollUs)) <==>
              Max(30_000_000, callUs) + callUs + 3 * pollUs <= 84_999_000
  {
    SurvivesExactlyWhen(limit, Proofs, Setting(DEFAULT_LEASE_MS, DEFAULT_HEARTBEAT_MS, callUs, pollUs));
    SurvivesExactlyWhen(limit, EveryReport, Setting(DEFAULT_LEASE_MS, DEFAULT_HEARTBEAT_MS, callUs, pollUs));
  }
}
