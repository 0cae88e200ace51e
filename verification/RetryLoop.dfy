/** The `*_until_resolved` loops: one call repeated over an unreliable link until it is answered or
    the local lease deadline passes, with any other steps of the world in between; and what the worker
    is told against what happened. */
module RetryLoop {
  import opened Wrappers
  import opened ProofProtocol
  import opened LeaseQueue
  import opened LeaseQueueInvariant
  import opened LeaseQueueRuns
  import opened JobLifecycle

  /** What becomes of one attempt: answered, executed with the reply lost, or never executed. */
  datatype Fate = Answered | ReplyLost | NeverSent

  /** One turn of a loop: what the rest of the world does first, the attempt's fate, and the local
      clock read after a failed attempt. */
  datatype Try = Try(others: seq<Event>, fate: Fate, clockUs: int)

  datatype Resolution = Resolved(reply: nat) | DeadlinePassed | StillTrying

  /** The worker hears that its call took effect. */
  predicate Accepted(r: Resolution) { r.Resolved? && r.reply != 0 }

  /** One of the four scripts that check a lease. */
  predicate Guarded(call: Event) { call.DoHeartbeat? || Finishing(call) }

  predicate Finishing(call: Event) { call.DoComplete? || call.DoFinishError? || call.DoFailInvalid? }

  /** The turn is the last one. */
  predicate Ends(t: Try, deadlineUs: int) { t.fate.Answered? || t.clockUs >= deadlineUs }

  function After(w: World, call: Event, t: Try): World {
    if t.fate.NeverSent? then Run(w, t.others) else Apply(Run(w, t.others), call)
  }

  ghost predicate TriesPossible(limit: nat, w: World, call: Event, deadlineUs: int, tries: seq<Try>)
    decreases |tries|
  {
    tries == [] ||
    (&& Possible(limit, w, tries[0].others)
     && Enabled(limit, Run(w, tries[0].others), call)
     && (Ends(tries[0], deadlineUs) || TriesPossible(limit, After(w, call, tries[0]), call, deadlineUs, tries[1..])))
  }

  /** What the loop returns. */
  function Outcome(w: World, call: Event, deadlineUs: int, tries: seq<Try>): (r: Resolution)
    ensures r.DeadlinePassed? ==> exists i :: 0 <= i < |tries| && tries[i].clockUs >= deadlineUs
    ensures r.StillTrying? ==> forall i :: 0 <= i < |tries| ==> !Ends(tries[i], deadlineUs)
    decreases |tries|
  {
    if tries == [] then StillTrying
    else if tries[0].fate.Answered? then Resolved(Reply(Run(w, tries[0].others), call))
    else if tries[0].clockUs >= deadlineUs then DeadlinePassed
    else
      var r := Outcome(After(w, call, tries[0]), call, deadlineUs, tries[1..]);
      assert forall i :: 1 <= i < |tries| ==> tries[i] == tries[1..][i - 1];
      r
  }

  /** Every step the world takes meanwhile, this worker's executed attempts among them. */
  function Trace(w: World, call: Event, deadlineUs: int, tries: seq<Try>): seq<Event>
    decreases |tries|
  {
    if tries == [] then []
    else
      tries[0].others + (if tries[0].fate.NeverSent? then [] else [call])
      + (if Ends(tries[0], deadlineUs) then [] else Trace(After(w, call, tries[0]), call, deadlineUs, tries[1..]))
  }

  /** Some attempt took effect and its reply was lost. */
  predicate LandedUnheard(w: World, call: Event, deadlineUs: int, tries: seq<Try>)
    decreases |tries|
  {
    tries != [] && !tries[0].fate.Answered? &&
    ((tries[0].fate.ReplyLost? && Reply(Run(w, tries[0].others), call) != 0)
     || (tries[0].clockUs < deadlineUs && LandedUnheard(After(w, call, tries[0]), call, deadlineUs, tries[1..])))
  }

  /** Nobody else finishes anything under this lease. */
  predicate LeavesLease(es: seq<Event>, lease: string) {
    forall i :: 0 <= i < |es| && Finishing(es[i]) ==> es[i].lease != lease
  }

  predicate Undisturbed(tries: seq<Try>, lease: string) {
    forall i :: 0 <= i < |tries| ==> LeavesLease(tries[i].others, lease)
  }

  /** The steps of one turn. */
  function TurnTrace(call: Event, t: Try): seq<Event> { t.others + if t.fate.NeverSent? then [] else [call] }

  lemma OneTurn(w: World, call: Event, deadlineUs: int, tries: seq<Try>)
    requires tries != []
    ensures var (t, w') := (tries[0], After(w, call, tries[0]));
            && Outcome(w, call, deadlineUs, tries) ==
                 (if t.fate.Answered? then Resolved(Reply(Run(w, t.others), call))
                  else if t.clockUs >= deadlineUs then DeadlinePassed
                  else Outcome(w', call, deadlineUs, tries[1..]))
            && Trace(w, call, deadlineUs, tries) ==
                 TurnTrace(call, t) + if Ends(t, deadlineUs) then [] else Trace(w', call, deadlineUs, tries[1..])
  {
  }

  /** Whole turns, one after another. */
  function Turns(call: Event, tries: seq<Try>): seq<Event> {
    if tries == [] then []
    else tries[0].others + (if tries[0].fate.NeverSent? then [] else [call]) + Turns(call, tries[1..])
  }

  /** The first attempt that is answered, or fails at or past the deadline, is at `i`; or there is none. */
  predicate EndsFirstAt(tries: seq<Try>, deadlineUs: int, i: nat) {
    && i <= |tries|
    && (forall j :: 0 <= j < i ==> !tries[j].fate.Answered? && tries[j].clockUs < deadlineUs)
    && (i < |tries| ==> tries[i].fate.Answered? || tries[i].clockUs >= deadlineUs)
  }

  lemma EndsFirstInRest(tries: seq<Try>, deadlineUs: int, i: nat)
    requires EndsFirstAt(tries, deadlineUs, i) && i > 0
    ensures EndsFirstAt(tries[1..], deadlineUs, i - 1) && !Ends(tries[0], deadlineUs)
  {
    assert forall j :: 0 <= j < i - 1 ==> tries[1..][j] == tries[j + 1];
  }

  lemma TurnsOn(call: Event, tries: seq<Try>, i: nat)
    requires 0 < i <= |tries|
    ensures Turns(call, tries[..i]) == TurnTrace(call, tries[0]) + Turns(call, tries[1..][..i - 1])
    ensures i < |tries| ==> tries[1..][i - 1] == tries[i]
  {
    assert tries[..i][1..] == tries[1..][..i - 1] && tries[..i][0] == tries[0];
  }

  /** The trace of a loop that ends first at `i`. */
  function TraceTo(call: Event, tries: seq<Try>, i: nat): seq<Event>
    requires i <= |tries|
  {
    Turns(call, tries[..i]) + if i < |tries| then TurnTrace(call, tries[i]) else []
  }

  lemma TraceToOn(call: Event, tries: seq<Try>, i: nat)
    requires 0 < i <= |tries|
    ensures TraceTo(call, tries, i) == TurnTrace(call, tries[0]) + TraceTo(call, tries[1..], i - 1)
  {
    TurnsOn(call, tries, i);
  }

  lemma TraceToHere(call: Event, tries: seq<Try>)
    ensures TraceTo(call, tries, 0) == if tries == [] then [] else TurnTrace(call, tries[0])
  {
    assert tries[..0] == [];
    assert tries != [] ==> [] + TurnTrace(call, tries[0]) == TurnTrace(call, tries[0]);
  }

  lemma TraceEndsHere(w: World, call: Event, deadlineUs: int, tries: seq<Try>)
    requires EndsFirstAt(tries, deadlineUs, 0)
    ensures Trace(w, call, deadlineUs, tries) == TraceTo(call, tries, 0)
  {
    TraceToHere(call, tries);
    if tries != [] {
      OneTurn(w, call, deadlineUs, tries);
      assert TurnTrace(call, tries[0]) + [] == TurnTrace(call, tries[0]);
    }
  }

  lemma {:induction false} TraceToFirstEnd(w: World, call: Event, deadlineUs: int, tries: seq<Try>, i: nat)
    requires EndsFirstAt(tries, deadlineUs, i)
    ensures Trace(w, call, deadlineUs, tries) == TraceTo(call, tries, i)
    decreases i
  {
    if i == 0 {
      TraceEndsHere(w, call, deadlineUs, tries);
    } else {
      OneTurn(w, call, deadlineUs, tries);
      EndsFirstInRest(tries, deadlineUs, i);
      TraceToFirstEnd(After(w, call, tries[0]), call, deadlineUs, tries[1..], i - 1);
      TraceToOn(call, tries, i);
    }
  }

  /** The world before the attempt at `i`. */
  function WorldAt(w: World, call: Event, tries: seq<Try>, i: nat): World
    requires i < |tries|
  {
    Run(w, Turns(call, tries[..i]) + tries[i].others)
  }

  lemma WorldAtOn(w: World, call: Event, tries: seq<Try>, i: nat)
    requires 0 < i < |tries|
    ensures WorldAt(w, call, tries, i) == WorldAt(After(w, call, tries[0]), call, tries[1..], i - 1)
  {
    TurnsOn(call, tries, i);
    var more := Turns(call, tries[1..][..i - 1]) + tries[i].others;
    FirstTurn(w, call, tries[0], more);
    assert Turns(call, tries[..i]) + tries[i].others == TurnTrace(call, tries[0]) + more;
  }

  lemma {:induction false} OutcomeAtFirstEnd(w: World, call: Event, deadlineUs: int, tries: seq<Try>, i: nat)
    requires EndsFirstAt(tries, deadlineUs, i)
    ensures Outcome(w, call, deadlineUs, tries) ==
              if i == |tries| then StillTrying
              else if tries[i].fate.Answered? then Resolved(Reply(WorldAt(w, call, tries, i), call))
              else DeadlinePassed
    decreases |tries|
  {
    if tries != [] {
      OneTurn(w, call, deadlineUs, tries);
      if i == 0 {
        assert tries[..0] == [] && [] + tries[0].others == tries[0].others;
      } else {
        EndsFirstInRest(tries, deadlineUs, i);
        OutcomeAtFirstEnd(After(w, call, tries[0]), call, deadlineUs, tries[1..], i - 1);
        if i < |tries| { WorldAtOn(w, call, tries, i); }
      }
    }
  }

  /** The loop stops at the first attempt that is answered or fails at or past the deadline, whichever comes first;
      an answer is Redis's reply where the turns before leave the world; and no later attempt is made. */
  lemma StopsAtFirstEnd(w: World, call: Event, deadlineUs: int, tries: seq<Try>, i: nat)
    requires i <= |tries| && forall j :: 0 <= j < i ==> !tries[j].fate.Answered? && tries[j].clockUs < deadlineUs
    requires i < |tries| ==> tries[i].fate.Answered? || tries[i].clockUs >= deadlineUs
    ensures i == |tries| ==> Outcome(w, call, deadlineUs, tries) == StillTrying
                             && Trace(w, call, deadlineUs, tries) == Turns(call, tries)
    ensures i < |tries| ==>
              && Outcome(w, call, deadlineUs, tries) ==
                   (if tries[i].fate.Answered? then Resolved(Reply(Run(w, Turns(call, tries[..i]) + tries[i].others), call))
                    else DeadlinePassed)
              && Trace(w, call, deadlineUs, tries) ==
                   Turns(call, tries[..i]) + (tries[i].others + if tries[i].fate.NeverSent? then [] else [call])
  {
    TraceToFirstEnd(w, call, deadlineUs, tries, i);
    OutcomeAtFirstEnd(w, call, deadlineUs, tries, i);
    if i == |tries| { assert tries[..i] == tries; }
  }

  lemma FirstTurn(w: World, call: Event, t: Try, more: seq<Event>)
    ensures Run(w, TurnTrace(call, t) + more) == Run(After(w, call, t), more)
  {
    TurnRun(0, w, call, t);
    RunAppend(0, w, TurnTrace(call, t), more);
  }

  // ---------------------------------------------------------------- counting what took effect

  lemma {:induction false} FinishingsAppend(w: World, es: seq<Event>, fs: seq<Event>, lease: string)
    ensures Finishings(w, es + fs, lease) == Finishings(w, es, lease) + Finishings(Run(w, es), fs, lease)
    decreases |es|
  {
    if es == [] {
      assert es + fs == fs;
    } else {
      assert (es + fs)[1..] == es[1..] + fs;
      FinishingsAppend(Apply(w, es[0]), es[1..], fs, lease);
    }
  }

  lemma {:induction false} OthersFinishNothing(w: World, es: seq<Event>, lease: string)
    requires LeavesLease(es, lease)
    ensures Finishings(w, es, lease) == 0
    decreases |es|
  {
    if es != [] {
      assert Finishing(es[0]) ==> es[0].lease != lease;
      OthersFinishNothing(Apply(w, es[0]), es[1..], lease);
    }
  }

  /** What a reply of the guard means. */
  lemma GuardReplies(w: World, call: Event)
    requires Guarded(call)
    ensures Reply(w, call) == 0 <==> !Holds(w.store, call.id, call.worker, call.lease, w.Now())
    ensures Reply(w, call) == 0 ==> Apply(w, call) == w
    ensures Finishing(call) ==> (Finishes(w, call, call.lease) <==> Reply(w, call) != 0)
    ensures Finishing(call) ==> !Holds(Apply(w, call).store, call.id, call.worker, call.lease, w.Now())
  {
  }

  lemma TurnSteps(limit: nat, w: World, call: Event, t: Try)
    requires 1 <= limit && Consistent(limit, w) && Guarded(call) && call.lease in w.issued
    requires Possible(limit, w, t.others) && Enabled(limit, Run(w, t.others), call)
    ensures Possible(limit, w, TurnTrace(call, t)) && Run(w, TurnTrace(call, t)) == After(w, call, t)
    ensures Consistent(limit, After(w, call, t)) && call.lease in After(w, call, t).issued
    ensures Consistent(limit, Run(w, t.others)) && call.lease in Run(w, t.others).issued
  {
    RunAppend(limit, w, t.others, TurnTrace(call, t)[|t.others|..]);
    RunKeeps(limit, w, t.others);
    RunOne(limit, Run(w, t.others), call);
    assert t.others + [] == t.others;
    if !t.fate.NeverSent? {
      assert TurnTrace(call, t)[|t.others|..] == [call];
      StepKeeps(limit, Run(w, t.others), call);
    }
  }

  lemma TurnFinishings(w: World, call: Event, t: Try)
    requires Finishing(call) && LeavesLease(t.others, call.lease)
    ensures Finishings(w, TurnTrace(call, t), call.lease)
         == if !t.fate.NeverSent? && Reply(Run(w, t.others), call) != 0 then 1 else 0
  {
    OthersFinishNothing(w, t.others, call.lease);
    assert t.others + [] == t.others;
    if !t.fate.NeverSent? {
      FinishingsAppend(w, t.others, [call], call.lease);
      GuardReplies(Run(w, t.others), call);
      assert [call][1..] == [];
    }
  }

  /** Once the lease is fenced, no attempt lands and none is accepted. */
  lemma {:induction false} FencedLoop(limit: nat, w: World, call: Event, deadlineUs: int, tries: seq<Try>)
    requires 1 <= limit && Consistent(limit, w) && Guarded(call) && Fenced(w, call.id, call.worker, call.lease)
    requires TriesPossible(limit, w, call, deadlineUs, tries)
    ensures !Accepted(Outcome(w, call, deadlineUs, tries)) && !LandedUnheard(w, call, deadlineUs, tries)
    decreases |tries|
  {
    if tries != [] {
      var t := tries[0];
      TurnSteps(limit, w, call, t);
      FencingIsPermanent(limit, w, t.others, call.id, call.worker, call.lease, call);
      GuardReplies(Run(w, t.others), call);
      if !Ends(t, deadlineUs) {
        RunKeeps(limit, w, t.others);
        FencedLoop(limit, After(w, call, t), call, deadlineUs, tries[1..]);
      }
    }
  }

  /** The trace is a run of the world from the start, attempts included. */
  lemma {:induction false} TraceIsRun(limit: nat, w: World, call: Event, deadlineUs: int, tries: seq<Try>)
    requires 1 <= limit && Consistent(limit, w) && Guarded(call) && call.lease in w.issued
    requires TriesPossible(limit, w, call, deadlineUs, tries)
    ensures Possible(limit, w, Trace(w, call, deadlineUs, tries))
    ensures Consistent(limit, Run(w, Trace(w, call, deadlineUs, tries)))
    decreases |tries|
  {
    if tries != [] {
      var t, w' := tries[0], After(w, call, tries[0]);
      TurnSteps(limit, w, call, t);
      var rest := if Ends(t, deadlineUs) then [] else Trace(w', call, deadlineUs, tries[1..]);
      if !Ends(t, deadlineUs) { TraceIsRun(limit, w', call, deadlineUs, tries[1..]); }
      RunAppend(limit, w, TurnTrace(call, t), rest);
      assert Trace(w, call, deadlineUs, tries) == TurnTrace(call, t) + rest;
    }
  }

  /** What the last step of an answered loop was. */
  predicate EndsIn(w: World, trace: seq<Event>, call: Event, reply: nat) {
    && trace != [] && trace[|trace| - 1] == call
    && var before := Run(w, trace[..|trace| - 1]);
       Reply(before, call) == reply && Run(w, trace) == Apply(before, call)
  }

  /** An answered loop ends with the answered attempt, and the answer is Redis's reply to it. */
  lemma {:induction false} AnswerIsOfLastAttempt(limit: nat, w: World, call: Event, deadlineUs: int, tries: seq<Try>)
    requires Outcome(w, call, deadlineUs, tries).Resolved?
    ensures EndsIn(w, Trace(w, call, deadlineUs, tries), call, Outcome(w, call, deadlineUs, tries).reply)
    decreases |tries|
  {
    var t, w', trace := tries[0], After(w, call, tries[0]), Trace(w, call, deadlineUs, tries);
    if t.fate.Answered? {
      assert trace == t.others + [call] && trace[..|trace| - 1] == t.others;
      RunAppend(limit, w, t.others, [call]);
      RunOne(limit, Run(w, t.others), call);
    } else {
      AnswerIsOfLastAttempt(limit, w', call, deadlineUs, tries[1..]);
      var turn, rest := TurnTrace(call, t), Trace(w', call, deadlineUs, tries[1..]);
      assert trace == turn + rest && trace[..|trace| - 1] == turn + rest[..|rest| - 1];
      TurnRun(limit, w, call, t);
      RunAppend(limit, w, turn, rest);
      RunAppend(limit, w, turn, rest[..|rest| - 1]);
    }
  }

  lemma TurnRun(limit: nat, w: World, call: Event, t: Try)
    ensures Run(w, TurnTrace(call, t)) == After(w, call, t)
  {
    if t.fate.NeverSent? {
      assert TurnTrace(call, t) == t.others;
    } else {
      RunAppend(limit, w, t.others, [call]);
      RunOne(limit, Run(w, t.others), call);
    }
  }

  /** However many attempts Redis executed, a finishing call takes effect at most once; it did exactly if
      the worker heard so or an attempt landed unheard, never both. */
  lemma {:induction false} LandsExactlyWhen(limit: nat, w: World, call: Event, deadlineUs: int, tries: seq<Try>)
    requires 1 <= limit && Consistent(limit, w) && Finishing(call) && call.lease in w.issued
    requires TriesPossible(limit, w, call, deadlineUs, tries) && Undisturbed(tries, call.lease)
    ensures var (heard, unheard) := (Accepted(Outcome(w, call, deadlineUs, tries)), LandedUnheard(w, call, deadlineUs, tries));
            && !(heard && unheard)
            && Finishings(w, Trace(w, call, deadlineUs, tries), call.lease) == if heard || unheard then 1 else 0
    decreases |tries|
  {
    if tries != [] {
      var t, w' := tries[0], After(w, call, tries[0]);
      assert LeavesLease(t.others, call.lease);
      TurnSteps(limit, w, call, t);
      TurnFinishings(w, call, t);
      var rest := if Ends(t, deadlineUs) then [] else Trace(w', call, deadlineUs, tries[1..]);
      FinishingsAppend(w, TurnTrace(call, t), rest, call.lease);
      assert Trace(w, call, deadlineUs, tries) == TurnTrace(call, t) + rest;
      if !Ends(t, deadlineUs) {
        assert forall i :: 0 <= i < |tries[1..]| ==> tries[1..][i] == tries[i + 1];
        LandsExactlyWhen(limit, w', call, deadlineUs, tries[1..]);
        if t.fate.ReplyLost? && Reply(Run(w, t.others), call) != 0 {
          GuardReplies(Run(w, t.others), call);
          FencedLoop(limit, w', call, deadlineUs, tries[1..]);
        }
      }
    }
  }

  /** A refusal means that the lease is fenced, now and for good. */
  lemma RefusedIsFenced(limit: nat, w: World, call: Event, deadlineUs: int, tries: seq<Try>)
    requires 1 <= limit && Consistent(limit, w) && Guarded(call) && call.lease in w.issued
    requires TriesPossible(limit, w, call, deadlineUs, tries)
    requires Outcome(w, call, deadlineUs, tries) == Resolved(0)
    ensures Fenced(Run(w, Trace(w, call, deadlineUs, tries)), call.id, call.worker, call.lease)
  {
    AnswerIsOfLastAttempt(limit, w, call, deadlineUs, tries);
    TraceIsRun(limit, w, call, deadlineUs, tries);
    var trace := Trace(w, call, deadlineUs, tries);
    GuardReplies(Run(w, trace[..|trace| - 1]), call);
    RunKeeps(limit, w, trace);
  }

  // ---------------------------------------------------------------- what the worker is told

  datatype FinishDisposition = Requeued | Failed | Stale

  /** `complete_until_resolved` and `fail_invalid_until_resolved` return a boolean. */
  predicate ToldTrue(r: Resolution) { r == Resolved(1) }

  /** `finish_error_until_resolved` returns a disposition. */
  function Told(r: Resolution): FinishDisposition {
    match r
    case Resolved(reply) => if reply == 2 then Requeued else if reply == 1 then FinishDisposition.Failed else Stale
    case _ => Stale
  }

  /** Where the job is after an effective COMPLETE, FINISH_ERROR or FAIL_INVALID_CLAIM, with `w` showing the
      time at which Redis ran it. */
  predicate TookEffect(w: World, call: Event, requeued: bool)
    requires Finishing(call)
  {
    var (s, id, now, attempt) := (w.store, call.id, w.nowUs / 1000, Counter(w.store, call.id));
    && id in s.states && id !in s.leases
    && (if requeued then
          && call.DoFinishError? && call.retryable && attempt < call.maxAttempts
          && s.states[id] == Queued && InQueue(s, id) == 1 && InNotify(s, id) == 0 && id !in s.results
        else
          && InQueue(s, id) == 0 && InNotify(s, id) == 1
          && match call
             case DoComplete(_, _, _, result) =>
               s.states[id] == Completed(now, attempt) && Lookup(s.results, id) == Some(result)
             case DoFinishError(_, _, _, retryable, maxAttempts, result, error) =>
               !(retryable && attempt < maxAttempts)
               && s.states[id] == JobState.Failed(now, attempt, error) && Lookup(s.results, id) == Some(result)
             case DoFailInvalid(_, _, _, error) =>
               s.states[id] == JobState.Failed(now, attempt, error) && id !in s.results)
  }

  lemma CompleteEffect(limit: nat, w: World, call: Event)
    requires Consistent(limit, w) && Consistent(limit, Apply(w, call)) && call.DoComplete? && Reply(w, call) != 0
    ensures TookEffect(Apply(w, call), call, false) && Reply(w, call) == 1
  {
    assert JobConsistent(limit, Apply(w, call), call.id);
  }

  lemma FinishErrorEffect(limit: nat, w: World, call: Event)
    requires Consistent(limit, w) && Consistent(limit, Apply(w, call)) && call.DoFinishError? && Reply(w, call) != 0
    ensures TookEffect(Apply(w, call), call, Reply(w, call) == 2) && Reply(w, call) <= 2
  {
    assert JobConsistent(limit, w, call.id);
    assert JobConsistent(limit, Apply(w, call), call.id);
  }

  lemma FailInvalidEffect(limit: nat, w: World, call: Event)
    requires Consistent(limit, w) && Consistent(limit, Apply(w, call)) && call.DoFailInvalid? && Reply(w, call) != 0
    ensures TookEffect(Apply(w, call), call, false) && Reply(w, call) == 1
  {
    assert JobConsistent(limit, w, call.id);
    assert JobConsistent(limit, Apply(w, call), call.id);
  }

  lemma EffectOf(limit: nat, w: World, call: Event)
    requires 1 <= limit && Consistent(limit, w) && Enabled(limit, w, call) && Finishing(call) && Reply(w, call) != 0
    ensures TookEffect(Apply(w, call), call, Reply(w, call) == 2)
    ensures Reply(w, call) == 1 || (call.DoFinishError? && Reply(w, call) == 2)
  {
    StepKeeps(limit, w, call);
    if call.DoComplete? { CompleteEffect(limit, w, call); }
    else if call.DoFinishError? { FinishErrorEffect(limit, w, call); }
    else { FailInvalidEffect(limit, w, call); }
  }

  lemma AcceptedTookEffect(limit: nat, w: World, call: Event, trace: seq<Event>, reply: nat)
    requires 1 <= limit && Consistent(limit, w) && Finishing(call) && Possible(limit, w, trace)
    requires EndsIn(w, trace, call, reply) && reply != 0
    ensures TookEffect(Run(w, trace), call, reply == 2)
    ensures reply == 1 || (call.DoFinishError? && reply == 2)
  {
    var init := trace[..|trace| - 1];
    assert trace == init + [call];
    RunAppend(limit, w, init, [call]);
    RunOne(limit, Run(w, init), call);
    RunKeeps(limit, w, init);
    EffectOf(limit, Run(w, init), call);
  }

  /** What a finishing loop tells its caller is true: told of success, the job is where that success puts
      it, with all that it stores; told of a requeue, it is in the queue; and told nothing of the kind,
      its own call has taken effect if and only if an attempt landed unheard. */
  lemma ToldIsTrue(limit: nat, w: World, call: Event, deadlineUs: int, tries: seq<Try>)
    requires 1 <= limit && Consistent(limit, w) && Finishing(call) && call.lease in w.issued
    requires TriesPossible(limit, w, call, deadlineUs, tries) && Undisturbed(tries, call.lease)
    ensures var (r, trace) := (Outcome(w, call, deadlineUs, tries), Trace(w, call, deadlineUs, tries));
            var w' := Run(w, trace);
            && (!call.DoFinishError? ==> (ToldTrue(r) <==> r.Resolved? && r.reply != 0))
            && (call.DoFinishError? ==> (Told(r).Stale? <==> !(r.Resolved? && r.reply != 0)))
            && (ToldTrue(r) || Told(r).Failed? ==> TookEffect(w', call, false))
            && (Told(r).Requeued? ==> call.DoFinishError? && TookEffect(w', call, true))
            && (Told(r).Stale? ==> (Finishings(w, trace, call.lease) == 1 <==> LandedUnheard(w, call, deadlineUs, tries)))
  {
    var r, trace := Outcome(w, call, deadlineUs, tries), Trace(w, call, deadlineUs, tries);
    LandsExactlyWhen(limit, w, call, deadlineUs, tries);
    TraceIsRun(limit, w, call, deadlineUs, tries);
    if Accepted(r) {
      AnswerIsOfLastAttempt(limit, w, call, deadlineUs, tries);
      AcceptedTookEffect(limit, w, call, trace, r.reply);
    }
  }

  // ---------------------------------------------------------------- the worker's own result

  /** Nobody else publishes this very document. */
  predicate LeavesResult(es: seq<Event>, result: ResultDoc) {
    forall i :: 0 <= i < |es| && (es[i].DoComplete? || es[i].DoFinishError?) ==> es[i].result != result
  }

  predicate Unmistakable(tries: seq<Try>, result: ResultDoc) {
    result.outcome.Succeeded? && forall i :: 0 <= i < |tries| ==> LeavesResult(tries[i].others, result)
  }

  lemma {:induction false} SweepStoresNoSuccess(s: Store, ids: seq<string>, maxAttempts: nat, now: nat, id: string, result: ResultDoc)
    requires result.outcome.Succeeded? && Lookup(Sweep(s, ids, maxAttempts, now).store.results, id) == Some(result)
    ensures Lookup(s.results, id) == Some(result)
    decreases |ids|
  {
    if ids != [] {
      SweepStoresNoSuccess(s, ids[..|ids| - 1], maxAttempts, now, id, result);
    }
  }

  lemma StepStoresNot(limit: nat, w: World, e: Event, id: string, result: ResultDoc)
    requires Consistent(limit, w) && LeavesResult([e], result) && result.outcome.Succeeded?
    requires Lookup(Apply(w, e).store.results, id) == Some(result)
    ensures Lookup(w.store.results, id) == Some(result)
  {
    assert e.DoComplete? || e.DoFinishError? ==> [e][0].result != result;
    match e
    case DoSweep(ids, _, maxAttempts) => SweepStoresNoSuccess(w.store, ids, maxAttempts, w.Now(), id, result);
    case DoClaim(worker, lease, leaseMs) => ClaimTakesHead(limit, w, worker, lease, w.Now() + leaseMs);
    case _ =>
  }

  lemma {:induction false} OthersStoreNot(limit: nat, w: World, es: seq<Event>, id: string, result: ResultDoc)
    requires 1 <= limit && Consistent(limit, w) && Possible(limit, w, es)
    requires LeavesResult(es, result) && result.outcome.Succeeded? && Lookup(w.store.results, id) != Some(result)
    ensures Lookup(Run(w, es).store.results, id) != Some(result)
    decreases |es|
  {
    if es != [] {
      assert [es[0]][0] == es[0];
      StepKeeps(limit, w, es[0]);
      if Lookup(Apply(w, es[0]).store.results, id) == Some(result) { StepStoresNot(limit, w, es[0], id, result); }
      OthersStoreNot(limit, Apply(w, es[0]), es[1..], id, result);
    }
  }

  lemma ResultStays(limit: nat, w: World, es: seq<Event>, id: string, result: ResultDoc)
    requires 1 <= limit && Consistent(limit, w) && Possible(limit, w, es) && Lookup(w.store.results, id) == Some(result)
    ensures Lookup(Run(w, es).store.results, id) == Some(result)
  {
    RunKeeps(limit, w, es);
    assert JobEvolves(w, Run(w, es), id);
  }

  lemma CallStores(w: World, call: Event)
    requires call.DoComplete?
    ensures Lookup(Apply(w, call).store.results, call.id)
         == if Reply(w, call) != 0 then Some(call.result) else Lookup(w.store.results, call.id)
  {
  }

  predicate Stored(w: World, call: Event)
    requires call.DoComplete?
  {
    Lookup(w.store.results, call.id) == Some(call.result)
  }

  /** One turn of publishing stores the result exactly when Redis executed the attempt under the lease. */
  lemma TurnStores(limit: nat, w: World, call: Event, t: Try)
    requires 1 <= limit && Consistent(limit, w) && call.DoComplete? && Possible(limit, w, t.others)
    requires call.result.outcome.Succeeded? && LeavesResult(t.others, call.result) && !Stored(w, call)
    ensures Stored(After(w, call, t), call) <==> !t.fate.NeverSent? && Reply(Run(w, t.others), call) != 0
  {
    OthersStoreNot(limit, w, t.others, call.id, call.result);
    CallStores(Run(w, t.others), call);
  }

  /** This loop's own result is stored if and only if the worker heard so or an attempt landed unheard. So
      `complete_until_resolved` reports a stale result for a job it has completed exactly when an attempt
      landed unheard. */
  lemma {:induction false} OwnResultStoredExactlyWhen(limit: nat, w: World, call: Event, deadlineUs: int, tries: seq<Try>)
    requires 1 <= limit && Consistent(limit, w) && call.DoComplete? && call.lease in w.issued
    requires TriesPossible(limit, w, call, deadlineUs, tries) && Unmistakable(tries, call.result)
    requires !Stored(w, call)
    ensures Stored(Run(w, Trace(w, call, deadlineUs, tries)), call) <==>
              Accepted(Outcome(w, call, deadlineUs, tries)) || LandedUnheard(w, call, deadlineUs, tries)
    decreases |tries|
  {
    if tries != [] {
      var t, w' := tries[0], After(w, call, tries[0]);
      TurnSteps(limit, w, call, t);
      assert LeavesResult(t.others, call.result);
      TurnStores(limit, w, call, t);
      OneTurn(w, call, deadlineUs, tries);
      var rest := if Ends(t, deadlineUs) then [] else Trace(w', call, deadlineUs, tries[1..]);
      RunAppend(limit, w, TurnTrace(call, t), rest);
      if !Ends(t, deadlineUs) {
        TraceIsRun(limit, w', call, deadlineUs, tries[1..]);
        if Stored(w', call) {
          ResultStays(limit, w', rest, call.id, call.result);
        } else {
          assert forall i :: 0 <= i < |tries[1..]| ==> tries[1..][i] == tries[i + 1];
          OwnResultStoredExactlyWhen(limit, w', call, deadlineUs, tries[1..]);
        }
      }
    }
  }

  /** It happens to every lease that is held: one lost reply, and the repeated COMPLETE is refused. */
  lemma LostReplyLooksStale(w: World, call: Event, clockUs: int, deadlineUs: int)
    requires call.DoComplete? && Holds(w.store, call.id, call.worker, call.lease, w.Now()) && clockUs < deadlineUs
    ensures var tries := [Try([], ReplyLost, clockUs), Try([], Answered, clockUs)];
            Outcome(w, call, deadlineUs, tries) == Resolved(0) && LandedUnheard(w, call, deadlineUs, tries)
  {
    var a, b := Try([], ReplyLost, clockUs), Try([], Answered, clockUs);
    assert [a, b][1..] == [b];
    GuardReplies(w, call);
    GuardReplies(Apply(w, call), call);
    assert Outcome(Apply(w, call), call, deadlineUs, [b]) == Resolved(Reply(Apply(w, call), call));
  }

  // ---------------------------------------------------------------- the loop

  /** The loop around any of the four guarded scripts: it returns what `Outcome` says, and what it did is
      the run `Trace`. */
  method UntilResolved(limit: nat, start: World, call: Event, deadlineUs: int, tries: seq<Try>)
    returns (r: Resolution, w: World, trace: seq<Event>)
    requires 1 <= limit && Consistent(limit, start) && Guarded(call) && call.lease in start.issued
    requires TriesPossible(limit, start, call, deadlineUs, tries)
    ensures r == Outcome(start, call, deadlineUs, tries) && trace == Trace(start, call, deadlineUs, tries)
    ensures w == Run(start, trace) && Possible(limit, start, trace)
    ensures r == Resolved(0) ==> Fenced(w, call.id, call.worker, call.lease)
    ensures Accepted(r) ==> EndsIn(start, trace, call, r.reply)
    ensures Finishing(call) && Undisturbed(tries, call.lease) ==>
              Finishings(start, trace, call.lease)
                == if Accepted(r) || LandedUnheard(start, call, deadlineUs, tries) then 1 else 0
    ensures call.DoComplete? && Unmistakable(tries, call.result) && !Stored(start, call) && !Accepted(r) ==>
              (Stored(w, call) <==> LandedUnheard(start, call, deadlineUs, tries))
  {
    ghost var outcome, whole := Outcome(start, call, deadlineUs, tries), Trace(start, call, deadlineUs, tries);
    r, w, trace := Loop(start, call, deadlineUs, tries, outcome, whole);
    LoopFacts(limit, start, call, deadlineUs, tries);
  }

  /** One attempt, after what the others do first. */
  method Attempt(w: World, call: Event, t: Try) returns (w': World, reply: nat)
    ensures w' == After(w, call, t)
    ensures t.fate.Answered? ==> reply == Reply(Run(w, t.others), call)
  {
    w', reply := Run(w, t.others), 0;
    if !t.fate.NeverSent? { w', reply := Apply(w', call), Reply(w', call); }
  }

  /** From `w`, with `trace` done and `rest` to come, the loop ends with this outcome and this whole trace. */
  predicate Heads(w: World, call: Event, deadlineUs: int, trace: seq<Event>, rest: seq<Try>, outcome: Resolution,
                  whole: seq<Event>)
  {
    outcome == Outcome(w, call, deadlineUs, rest) && whole == trace + Trace(w, call, deadlineUs, rest)
  }

  lemma HeadsOn(w: World, call: Event, deadlineUs: int, trace: seq<Event>, rest: seq<Try>, outcome: Resolution,
                whole: seq<Event>)
    requires rest != [] && Heads(w, call, deadlineUs, trace, rest, outcome, whole)
    ensures var (t, done) := (rest[0], trace + TurnTrace(call, rest[0]));
            if t.fate.Answered? then outcome == Resolved(Reply(Run(w, t.others), call)) && whole == done
            else if t.clockUs >= deadlineUs then outcome == DeadlinePassed && whole == done
            else Heads(After(w, call, t), call, deadlineUs, done, rest[1..], outcome, whole)
  {
    OneTurn(w, call, deadlineUs, rest);
  }

  lemma StepsOn(start: World, trace: seq<Event>, w: World, call: Event, t: Try)
    requires w == Run(start, trace)
    ensures Run(start, trace + TurnTrace(call, t)) == After(w, call, t)
  {
    RunAppend(0, start, trace, TurnTrace(call, t));
    TurnRun(0, w, call, t);
  }

  method Loop(start: World, call: Event, deadlineUs: int, tries: seq<Try>, ghost outcome: Resolution, ghost whole: seq<Event>)
    returns (r: Resolution, w: World, trace: seq<Event>)
    requires Heads(start, call, deadlineUs, [], tries, outcome, whole)
    ensures r == outcome && trace == whole && w == Run(start, trace)
  {
    w, trace := start, [];
    var i := 0;
    while i < |tries|
      invariant i <= |tries| && w == Run(start, trace)
      invariant Heads(w, call, deadlineUs, trace, tries[i..], outcome, whole)
    {
      var t := tries[i];
      assert tries[i..][0] == t && tries[i..][1..] == tries[i + 1..];
      HeadsOn(w, call, deadlineUs, trace, tries[i..], outcome, whole);
      StepsOn(start, trace, w, call, t);
      var reply;
      trace := trace + TurnTrace(call, t);
      w, reply := Attempt(w, call, t);
      if t.fate.Answered? { return Resolved(reply), w, trace; }
      if t.clockUs >= deadlineUs { return DeadlinePassed, w, trace; }
      i := i + 1;
    }
    return StillTrying, w, trace;
  }

  lemma LoopFacts(limit: nat, w: World, call: Event, deadlineUs: int, tries: seq<Try>)
    requires 1 <= limit && Consistent(limit, w) && Guarded(call) && call.lease in w.issued
    requires TriesPossible(limit, w, call, deadlineUs, tries)
    ensures var (r, trace, unheard) := (Outcome(w, call, deadlineUs, tries), Trace(w, call, deadlineUs, tries),
                                        LandedUnheard(w, call, deadlineUs, tries));
            && Possible(limit, w, trace)
            && (r == Resolved(0) ==> Fenced(Run(w, trace), call.id, call.worker, call.lease))
            && (Accepted(r) ==> EndsIn(w, trace, call, r.reply))
            && (Finishing(call) && Undisturbed(tries, call.lease) ==>
                  Finishings(w, trace, call.lease) == if Accepted(r) || unheard then 1 else 0)
            && (call.DoComplete? && Unmistakable(tries, call.result) && !Stored(w, call) && !Accepted(r) ==>
                  (Stored(Run(w, trace), call) <==> unheard))
  {
    var r := Outcome(w, call, deadlineUs, tries);
    TraceIsRun(limit, w, call, deadlineUs, tries);
    if r == Resolved(0) { RefusedIsFenced(limit, w, call, deadlineUs, tries); }
    if Accepted(r) { AnswerIsOfLastAttempt(limit, w, call, deadlineUs, tries); }
    if Finishing(call) && Undisturbed(tries, call.lease) { LandsExactlyWhen(limit, w, call, deadlineUs, tries); }
    if call.DoComplete? && Unmistakable(tries, call.result) && !Stored(w, call) {
      OwnResultStoredExactlyWhen(limit, w, call, deadlineUs, tries);
    }
  }
}
