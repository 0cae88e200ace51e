/** Any number of workers, each with its own claim and its own daemon, on the shared store: what a
    `Completed` job means. */
module EndToEnd {
  import opened Wrappers
  import opened ProofProtocol
  import opened Bytes
  import opened JobIdentity
  import opened LeaseQueue
  import opened LeaseQueueInvariant
  import opened JobLifecycle
  import opened Session

  /** What a worker has in memory about its current claim. */
  datatype Hold =
    | Nothing
    | Malformed(jobId: string, lease: string)
    | Holding(job: ProofJob, lease: string)
    | Proved(job: ProofJob, lease: string, response: DaemonProofResponse, stderr: string)
    | Failing(job: ProofJob, lease: string, failure: WorkerFailure)

  datatype Agent = Agent(worker: string, talk: Talk, hold: Hold)

  /** The world, the workers by process, every artifact a daemon has produced so far, and for which reasons
      attempts at which jobs have failed. */
  datatype System = System(world: World, agents: map<string, Agent>, made: set<Artifact>, verdicts: set<(string, Reason)>)

  const Initial := System(Start, map[], {}, {})

  datatype SystemEvent =
    | Outside(e: Event)                                     // time, producers, sweeps
    | Boot(a: string, worker: string)                       // a process starts, or restarts after a crash
    | ClaimJob(a: string, lease: string, leaseMs: nat)
    | Chat(a: string, te: TalkEvent, stderr: string)
    | Beat(a: string, leaseMs: nat)
    | Publish(a: string)
    | GiveUp(a: string, maxAttempts: nat, error: string)
    | GiveUpMalformed(a: string, error: string)
    | Forget(a: string)                                     // a call resolved, or its deadline passed

  /** `claim`: the payload is the claimed job, or the claim is malformed. */
  function HoldOf(reply: Option<ClaimReply>, lease: string): Hold {
    match reply
    case None => Nothing
    case Some(r) =>
      if r.payload.Job? && r.payload.job.jobId == r.jobId then Holding(r.payload.job, lease)
      else Malformed(r.jobId, lease)
  }

  function JobOf(h: Hold): string
    requires !h.Nothing?
  {
    if h.Malformed? then h.jobId else h.job.jobId
  }

  /** The script call, if any, that an event makes. */
  function Call(sys: System, e: SystemEvent): Option<Event> {
    match e
    case Outside(outside) => Some(outside)
    case ClaimJob(a, lease, leaseMs) =>
      if a in sys.agents then Some(DoClaim(sys.agents[a].worker, lease, leaseMs)) else None
    case Beat(a, leaseMs) =>
      if a in sys.agents && (sys.agents[a].hold.Holding? || sys.agents[a].hold.Proved?)
      then Some(DoHeartbeat(JobOf(sys.agents[a].hold), sys.agents[a].worker, sys.agents[a].hold.lease, leaseMs)) else None
    case Publish(a) =>
      if a in sys.agents && sys.agents[a].hold.Proved? then
        var h := sys.agents[a].hold;
        Some(DoComplete(h.job.jobId, sys.agents[a].worker, h.lease, ResultWith(h.job, Succeeded(h.response, h.stderr))))
      else None
    case GiveUp(a, maxAttempts, error) =>
      if a in sys.agents && sys.agents[a].hold.Failing? then
        var h := sys.agents[a].hold;
        Some(DoFinishError(h.job.jobId, sys.agents[a].worker, h.lease, h.failure.retryable, maxAttempts,
                           ResultWith(h.job, Errored(error)), error))
      else None
    case GiveUpMalformed(a, error) =>
      if a in sys.agents && sys.agents[a].hold.Malformed?
      then Some(DoFailInvalid(sys.agents[a].hold.jobId, sys.agents[a].worker, sys.agents[a].hold.lease, error)) else None
    case _ => None
  }

  /** The message of a failure; only what the daemon reports is passed on as it is. */
  predicate MessageOf(reason: Reason, error: string) { reason.DaemonReported? ==> error == reason.text }

  ghost predicate SystemEnabled(c: Crypto, network: string, limit: nat, sys: System, e: SystemEvent) {
    && (Call(sys, e).Some? ==> Enabled(limit, sys.world, Call(sys, e).value))
    && match e
       case Outside(outside) => outside.Tick? || outside.Submit? || outside.DoSweep?
       case Boot(_, _) => true
       case ClaimJob(a, _, _) => a in sys.agents && sys.agents[a].hold.Nothing? && sys.agents[a].talk.phase.Between?
       case Chat(a, te, _) =>
         && a in sys.agents && TalkEnabled(network, sys.agents[a].talk, te)
         && (te.BeginWrite? || te.Reject? ==>              // `prove_claim` is about the job it holds
               && sys.agents[a].hold.Holding? && sys.agents[a].hold.job == te.job
               && (if te.Reject? && te.reason.JobRejected? then ValidateJob(c, te.job, network) == Rejected(te.reason.why)
                   else ValidateJob(c, te.job, network).Accepted?))
       case Forget(a) => a in sys.agents && sys.agents[a].talk.phase.Between?
       case GiveUp(a, _, error) => Call(sys, e).Some? && MessageOf(sys.agents[a].hold.failure.reason, error)
       case _ => Call(sys, e).Some?
  }

  /** The claim in memory after a step on the pipe: an accepted answer turns it into a proof, and whatever ends
      the attempt otherwise into a failure. */
  function HoldAfter(network: string, agent: Agent, te: TalkEvent, stderr: string): Hold
    requires TalkEnabled(network, agent.talk, te)
  {
    if !agent.hold.Holding? then agent.hold
    else
      match te
      case ReadAnswer =>
        (match Classify(agent.talk.phase.job, agent.talk.daemon.value.unread[0])
         case Success(response) => Proved(agent.hold.job, agent.hold.lease, response, stderr)
         case Failure(failure) => Failing(agent.hold.job, agent.hold.lease, failure))
      case Reject(_, reason) => Failing(agent.hold.job, agent.hold.lease, FailureOf(reason))
      case BreakOff(reason) => Failing(agent.hold.job, agent.hold.lease, FailureOf(reason))
      case _ => agent.hold
  }

  /** The verdict, if any, that a claim in memory stands for. */
  function VerdictOf(h: Hold): set<(string, Reason)> {
    if h.Failing? then {(h.job.jobId, h.failure.reason)} else {}
  }

  function SystemStep(network: string, sys: System, e: SystemEvent): System
    requires e.Chat? ==> e.a in sys.agents && TalkEnabled(network, sys.agents[e.a].talk, e.te)
    requires e.ClaimJob? || e.Forget? ==> e.a in sys.agents
  {
    var world := if Call(sys, e).Some? then Apply(sys.world, Call(sys, e).value) else sys.world;
    match e
    case Boot(a, worker) => sys.(world := world, agents := sys.agents[a := Agent(worker, Quiet, Nothing)])
    case ClaimJob(a, lease, leaseMs) =>
      var reply := Claim(sys.world.store, sys.agents[a].worker, lease, sys.world.Now() + leaseMs).1;
      sys.(world := world, agents := sys.agents[a := sys.agents[a].(hold := HoldOf(reply, lease))])
    case Chat(a, te, stderr) =>
      var agent := sys.agents[a];
      var hold := HoldAfter(network, agent, te, stderr);
      System(world, sys.agents[a := agent.(talk := TalkStep(network, agent.talk, te), hold := hold)],
             Produced(network, agent.talk, te, sys.made), sys.verdicts + VerdictOf(hold))
    case Forget(a) => sys.(world := world, agents := sys.agents[a := sys.agents[a].(hold := Nothing)])
    case _ => sys.(world := world)
  }

  // ---------------------------------------------------------------- what completion means

  /** A response that carries, byte for byte, artifacts made for this job's request. */
  ghost predicate CarriesArtifact(job: ProofJob, r: DaemonProofResponse, made: set<Artifact>) {
    exists proof, values ::
      && Artifact(job.request, proof, values) in made
      && HexDecode(r.proofBytes) == Some(proof) && HexDecode(r.publicValues) == Some(values)
  }

  ghost predicate Genuine(c: Crypto, network: string, s: Store, id: string, made: set<Artifact>) {
    && id in s.payloads && s.payloads[id].Job? && s.payloads[id].job.jobId == id
    && Authentic(c, network, s.payloads[id].job)
    && id in s.results && s.results[id].outcome.Succeeded?
    && s.results[id] == ResultWith(s.payloads[id].job, s.results[id].outcome)
    && Matches(s.payloads[id].job, s.results[id].outcome.response)
    && CarriesArtifact(s.payloads[id].job, s.results[id].outcome.response, made)
  }

  ghost predicate HoldOk(c: Crypto, network: string, s: Store, h: Hold, made: set<Artifact>) {
    match h
    case Holding(job, _) => Lookup(s.payloads, job.jobId) == Some(Job(job))
    case Proved(job, _, response, _) =>
      && Lookup(s.payloads, job.jobId) == Some(Job(job))
      && Authentic(c, network, job) && Matches(job, response) && CarriesArtifact(job, response, made)
    case _ => true
  }

  ghost predicate AgentOk(c: Crypto, network: string, s: Store, agent: Agent, made: set<Artifact>) {
    && Paired(network, agent.talk, made)
    && HoldOk(c, network, s, agent.hold, made)
    && (!agent.talk.phase.Between? ==>
          && agent.hold.Holding? && agent.hold.job == agent.talk.phase.job
          && Authentic(c, network, agent.hold.job))
  }

  ghost predicate CompletedGenuine(c: Crypto, network: string, s: Store, made: set<Artifact>) {
    forall id :: id in s.states && s.states[id].Completed? ==> Genuine(c, network, s, id, made)
  }

  ghost predicate SystemOk(c: Crypto, network: string, limit: nat, sys: System) {
    && Consistent(limit, sys.world)
    && CompletedGenuine(c, network, sys.world.store, sys.made)
    && forall a :: a in sys.agents ==> AgentOk(c, network, sys.world.store, sys.agents[a], sys.made)
  }

  // ---------------------------------------------------------------- preservation

  lemma MoreMade(network: string, t: Talk, made: set<Artifact>, more: set<Artifact>)
    requires Paired(network, t, made) && made <= more
    ensures Paired(network, t, more)
  {
    if t.phase.Waiting? && t.daemon.Some? && OwnAnswer(t.daemon.value, t.phase.job, made) {
      var work := WorkBehind(t.daemon.value, t.phase.job, made);
      assert OwnAnswer(t.daemon.value, t.phase.job, more);
    }
  }

  lemma AgentCarries(c: Crypto, network: string, s: Store, s': Store, agent: Agent, made: set<Artifact>, more: set<Artifact>)
    requires AgentOk(c, network, s, agent, made) && made <= more
    requires forall id :: id in s.payloads ==> Lookup(s'.payloads, id) == Lookup(s.payloads, id)
    ensures AgentOk(c, network, s', agent, more)
  {
    MoreMade(network, agent.talk, made, more);
  }

  lemma PayloadsStay(limit: nat, w: World, w': World)
    requires Evolves(w, w')
    ensures forall id :: id in w.store.payloads ==> Lookup(w'.store.payloads, id) == Lookup(w.store.payloads, id)
  {
    forall id | id in w.store.payloads ensures Lookup(w'.store.payloads, id) == Lookup(w.store.payloads, id) {
      assert JobEvolves(w, w', id);
    }
  }

  lemma {:induction false} SweepNeverCompletes(s: Store, ids: seq<string>, maxAttempts: nat, now: nat, id: string)
    ensures var s' := Sweep(s, ids, maxAttempts, now).store;
            id in s'.states && s'.states[id].Completed? ==> id in s.states && s.states[id].Completed?
    decreases |ids|
  {
    if ids != [] { SweepNeverCompletes(s, ids[..|ids| - 1], maxAttempts, now, id); }
  }

  /** The one step that completes a job is an accepted COMPLETE for its claim; it stores the result it brought,
      the Redis time in milliseconds and the attempt. */
  lemma OnlyCompleteCompletes(limit: nat, w: World, e: Event, id: string)
    requires Consistent(limit, w) && Enabled(limit, w, e)
    requires id in Apply(w, e).store.states && Apply(w, e).store.states[id].Completed?
    ensures (id in w.store.states && w.store.states[id].Completed?)
            || (&& e.DoComplete? && e.id == id && Lookup(Apply(w, e).store.results, id) == Some(e.result)
                && id in w.store.states && w.store.states[id].MatchesLease(e.worker, e.lease)
                && Apply(w, e).store.states[id] == Completed(w.nowUs / 1000, w.store.states[id].attempt))
  {
    MillisecondsOf(w.nowUs);
    match e
    case DoSweep(ids, _, maxAttempts) => SweepNeverCompletes(w.store, ids, maxAttempts, w.Now(), id);
    case DoClaim(worker, lease, leaseMs) =>
      ClaimTakesHead(limit, w, worker, lease, w.Now() + leaseMs);
    case _ =>
  }

  lemma GenuineStays(c: Crypto, network: string, limit: nat, w: World, w': World, id: string, made: set<Artifact>)
    requires Evolves(w, w') && Genuine(c, network, w.store, id, made)
    ensures Genuine(c, network, w'.store, id, made)
  {
    assert JobEvolves(w, w', id);
  }

  /** A result a worker publishes for the proof it holds is genuine once stored. */
  lemma PublishedIsGenuine(c: Crypto, network: string, sys: System, a: string, e: Event, s': Store)
    requires a in sys.agents && Call(sys, Publish(a)) == Some(e)
    requires AgentOk(c, network, sys.world.store, sys.agents[a], sys.made)
    requires Lookup(s'.results, e.id) == Some(e.result)
    requires Lookup(s'.payloads, e.id) == Lookup(sys.world.store.payloads, e.id)
    ensures Genuine(c, network, s', e.id, sys.made)
  {
    var h := sys.agents[a].hold;
    assert e.result == ResultWith(h.job, Succeeded(h.response, h.stderr));
  }

  lemma CompletionStays(c: Crypto, network: string, limit: nat, sys: System, e: Event)
    requires SystemOk(c, network, limit, sys) && 1 <= limit && Enabled(limit, sys.world, e)
    requires e.DoComplete? ==> exists a :: a in sys.agents && Call(sys, Publish(a)) == Some(e)
    ensures CompletedGenuine(c, network, Apply(sys.world, e).store, sys.made)
  {
    var w, w' := sys.world, Apply(sys.world, e);
    StepKeeps(limit, w, e);
    PayloadsStay(limit, w, w');
    forall id | id in w'.store.states && w'.store.states[id].Completed?
      ensures Genuine(c, network, w'.store, id, sys.made)
    {
      OnlyCompleteCompletes(limit, w, e, id);
      if id in w.store.states && w.store.states[id].Completed? {
        GenuineStays(c, network, limit, w, w', id, sys.made);
      } else {
        var a :| a in sys.agents && Call(sys, Publish(a)) == Some(e);
        assert AgentOk(c, network, w.store, sys.agents[a], sys.made);
        PublishedIsGenuine(c, network, sys, a, e, w'.store);
      }
    }
  }

  lemma ChatKeeps(c: Crypto, network: string, s: Store, agent: Agent, te: TalkEvent, stderr: string, made: set<Artifact>)
    requires AgentOk(c, network, s, agent, made) && TalkEnabled(network, agent.talk, te)
    requires te.BeginWrite? ==> agent.hold.Holding? && agent.hold.job == te.job && ValidateJob(c, te.job, network).Accepted?
    ensures AgentOk(c, network, s, agent.(talk := TalkStep(network, agent.talk, te), hold := HoldAfter(network, agent, te, stderr)),
                    Produced(network, agent.talk, te, made))
  {
    TalkStepPairs(network, agent.talk, te, made);
    if te.BeginWrite? { ValidateJobExact(c, te.job, network); }
    if te.ReadAnswer? { AnswerCarries(c, network, s, agent, made); }
    HoldCarries(c, network, s, agent.hold, made, Produced(network, agent.talk, te, made));
  }

  /** An accepted answer matches the job, and carries an artifact. */
  lemma AnswerCarries(c: Crypto, network: string, s: Store, agent: Agent, made: set<Artifact>)
    requires AgentOk(c, network, s, agent, made) && TalkEnabled(network, agent.talk, ReadAnswer)
    ensures var outcome := Classify(agent.talk.phase.job, agent.talk.daemon.value.unread[0]);
            outcome.Success? ==> Matches(agent.talk.phase.job, outcome.value)
                                 && CarriesArtifact(agent.talk.phase.job, outcome.value, made)
  {
    var p, job := agent.talk.daemon.value, agent.talk.phase.job;
    ClassifyExact(job, p.unread[0]);
    var work := WorkBehind(p, job, made);
    ClassifyAnswer(job, p.identity, work);
  }

  lemma HoldCarries(c: Crypto, network: string, s: Store, h: Hold, made: set<Artifact>, more: set<Artifact>)
    requires HoldOk(c, network, s, h, made) && made <= more
    ensures HoldOk(c, network, s, h, more)
  {
  }

  lemma ClaimedHoldOk(c: Crypto, network: string, limit: nat, w: World, worker: string, lease: string, leaseMs: nat,
                      made: set<Artifact>)
    requires 1 <= limit && Consistent(limit, w) && Enabled(limit, w, DoClaim(worker, lease, leaseMs))
    ensures var (s', reply) := Claim(w.store, worker, lease, w.Now() + leaseMs);
            HoldOk(c, network, Apply(w, DoClaim(worker, lease, leaseMs)).store, HoldOf(reply, lease), made)
  {
    var e := DoClaim(worker, lease, leaseMs);
    StepKeeps(limit, w, e);
    PayloadsStay(limit, w, Apply(w, e));
    HeadGiven(limit, w, worker, lease, leaseMs);
    if w.store.queue != [] {
      var head := w.store.queue[0];
      assert Lookup(Apply(w, e).store.payloads, head) == Lookup(w.store.payloads, head);
    }
  }

  lemma WorldPart(c: Crypto, network: string, limit: nat, sys: System, e: SystemEvent)
    requires 1 <= limit && SystemOk(c, network, limit, sys) && SystemEnabled(c, network, limit, sys, e)
    ensures var sys' := SystemStep(network, sys, e);
            && Consistent(limit, sys'.world) && Evolves(sys.world, sys'.world)
            && CompletedGenuine(c, network, sys'.world.store, sys.made)
  {
    if Call(sys, e).Some? {
      var call := Call(sys, e).value;
      StepKeeps(limit, sys.world, call);
      if call.DoComplete? {
        assert e.Publish?;
        assert e.a in sys.agents && Call(sys, Publish(e.a)) == Some(call);
      }
      CompletionStays(c, network, limit, sys, call);
    } else {
      EvolvesReflexive(sys.world);
    }
  }

  /** The worker an event is about. */
  predicate About(e: SystemEvent, a: string) {
    match e
    case Boot(b, _) => a == b
    case ClaimJob(b, _, _) => a == b
    case Chat(b, _, _) => a == b
    case Forget(b) => a == b
    case _ => false
  }

  lemma OtherAgentPart(c: Crypto, network: string, limit: nat, sys: System, e: SystemEvent, a: string)
    requires 1 <= limit && SystemOk(c, network, limit, sys) && SystemEnabled(c, network, limit, sys, e)
    requires a in sys.agents && sys.made <= SystemStep(network, sys, e).made
    ensures AgentOk(c, network, SystemStep(network, sys, e).world.store, sys.agents[a], SystemStep(network, sys, e).made)
  {
    var sys' := SystemStep(network, sys, e);
    WorldPart(c, network, limit, sys, e);
    PayloadsStay(limit, sys.world, sys'.world);
    AgentCarries(c, network, sys.world.store, sys'.world.store, sys.agents[a], sys.made, sys'.made);
  }

  lemma OwnAgentPart(c: Crypto, network: string, limit: nat, sys: System, e: SystemEvent, a: string)
    requires 1 <= limit && SystemOk(c, network, limit, sys) && SystemEnabled(c, network, limit, sys, e)
    requires About(e, a)
    ensures a in SystemStep(network, sys, e).agents
    ensures var sys' := SystemStep(network, sys, e); AgentOk(c, network, sys'.world.store, sys'.agents[a], sys'.made)
  {
    if a in sys.agents { assert AgentOk(c, network, sys.world.store, sys.agents[a], sys.made); }
    match e
    case ClaimJob(_, lease, leaseMs) =>
      OtherAgentPart(c, network, limit, sys, e, a);
      ClaimedHoldOk(c, network, limit, sys.world, sys.agents[a].worker, lease, leaseMs, sys.made);
    case Chat(_, te, stderr) =>
      ChatKeeps(c, network, sys.world.store, sys.agents[a], te, stderr, sys.made);
    case _ =>
  }

  /** An event changes no worker it is not about, and forgets no artifact. */
  lemma OthersStay(c: Crypto, network: string, limit: nat, sys: System, e: SystemEvent)
    requires SystemEnabled(c, network, limit, sys, e)
    ensures var sys' := SystemStep(network, sys, e);
            && sys.made <= sys'.made
            && forall a :: a in sys'.agents && !About(e, a) ==> a in sys.agents && sys'.agents[a] == sys.agents[a]
  {
  }

  lemma SystemStepOk(c: Crypto, network: string, limit: nat, sys: System, e: SystemEvent)
    requires 1 <= limit && SystemOk(c, network, limit, sys) && SystemEnabled(c, network, limit, sys, e)
    ensures SystemOk(c, network, limit, SystemStep(network, sys, e))
  {
    var sys' := SystemStep(network, sys, e);
    WorldPart(c, network, limit, sys, e);
    OthersStay(c, network, limit, sys, e);
    forall a | a in sys'.agents ensures AgentOk(c, network, sys'.world.store, sys'.agents[a], sys'.made) {
      if About(e, a) {
        OwnAgentPart(c, network, limit, sys, e, a);
      } else {
        OtherAgentPart(c, network, limit, sys, e, a);
      }
    }
    GenuineCarries(c, network, sys'.world.store, sys.made, sys'.made);
  }

  lemma GenuineCarries(c: Crypto, network: string, s: Store, made: set<Artifact>, more: set<Artifact>)
    requires CompletedGenuine(c, network, s, made) && made <= more
    ensures CompletedGenuine(c, network, s, more)
  {
    forall id | id in s.states && s.states[id].Completed? ensures Genuine(c, network, s, id, more) {
      assert Genuine(c, network, s, id, made);
    }
  }

  // ---------------------------------------------------------------- whole runs

  ghost predicate SystemPossible(c: Crypto, network: string, limit: nat, sys: System, es: seq<SystemEvent>)
    decreases |es|
  {
    es == [] || (SystemEnabled(c, network, limit, sys, es[0])
                 && SystemPossible(c, network, limit, SystemStep(network, sys, es[0]), es[1..]))
  }

  ghost function SystemRun(c: Crypto, network: string, limit: nat, sys: System, es: seq<SystemEvent>): System
    requires SystemPossible(c, network, limit, sys, es)
    decreases |es|
  {
    if es == [] then sys else SystemRun(c, network, limit, SystemStep(network, sys, es[0]), es[1..])
  }

  lemma {:induction false} SystemRunOk(c: Crypto, network: string, limit: nat, sys: System, es: seq<SystemEvent>)
    requires 1 <= limit && SystemOk(c, network, limit, sys) && SystemPossible(c, network, limit, sys, es)
    ensures SystemOk(c, network, limit, SystemRun(c, network, limit, sys, es))
    decreases |es|
  {
    if es != [] {
      SystemStepOk(c, network, limit, sys, es[0]);
      SystemRunOk(c, network, limit, SystemStep(network, sys, es[0]), es[1..]);
    }
  }

  /** In every state the whole system can reach, a `Completed` job is what it says: its stored payload
      hashes to its key and to its fingerprint, its result is that job's result with a response that
      matches it in every identity field and has the right sizes, and the proof in it is, byte for
      byte, one a daemon produced for exactly this job's request. */
  lemma CompletedMeansProved(c: Crypto, network: string, limit: nat, es: seq<SystemEvent>, id: string)
    requires 1 <= limit && SystemPossible(c, network, limit, Initial, es)
    ensures var sys := SystemRun(c, network, limit, Initial, es);
            id in sys.world.store.states && sys.world.store.states[id].Completed? ==>
              Genuine(c, network, sys.world.store, id, sys.made)
  {
    SystemRunOk(c, network, limit, Initial, es);
  }

  // ---------------------------------------------------------------- what failure means

  /** What a recorded reason says about the job. A daemon that answers on the pipe never sends a line the
      worker cannot make out. */
  predicate Sound(c: Crypto, network: string, job: ProofJob, reason: Reason) {
    match reason
    case JobRejected(why) => ValidateJob(c, job, network) == Rejected(why)
    case DaemonReported(code, _) => !code.InvalidRequest?
    case _ =>
      || reason.IdentityMismatch? || reason.RequestUnserializable? || reason.RequestTooLong?
      || reason.BadSizes? || FailureOf(reason).retryable
  }

  predicate HoldTells(c: Crypto, network: string, s: Store, h: Hold, verdicts: set<(string, Reason)>) {
    match h
    case Malformed(id, _) => id in s.payloads && !WellFormed(s, id)
    case Failing(job, _, failure) =>
      && Lookup(s.payloads, job.jobId) == Some(Job(job)) && (job.jobId, failure.reason) in verdicts
      && failure == FailureOf(failure.reason) && Sound(c, network, job, failure.reason)
    case _ => true
  }

  /** A permanent reason for which an attempt at the job has failed, and which its result reports. */
  predicate FailedFor(c: Crypto, network: string, s: Store, id: string, verdicts: set<(string, Reason)>, reason: Reason)
    requires id in s.states && s.states[id].Failed?
  {
    && (id, reason) in verdicts && !FailureOf(reason).retryable
    && WellFormed(s, id) && Sound(c, network, s.payloads[id].job, reason)
    && Lookup(s.results, id) == Some(ResultWith(s.payloads[id].job, Errored(s.states[id].error)))
    && MessageOf(reason, s.states[id].error)
  }

  /** The attempts are used up, the payload was malformed, or there is a permanent reason. */
  ghost predicate FailedRightly(c: Crypto, network: string, limit: nat, s: Store, id: string, verdicts: set<(string, Reason)>)
    requires id in s.states && s.states[id].Failed?
  {
    || s.states[id].attempt >= limit
    || (id in s.payloads && !WellFormed(s, id) && id !in s.results)
    || exists reason :: FailedFor(c, network, s, id, verdicts, reason)
  }

  ghost predicate FailuresOk(c: Crypto, network: string, limit: nat, sys: System) {
    && (forall a :: a in sys.agents ==> HoldTells(c, network, sys.world.store, sys.agents[a].hold, sys.verdicts))
    && forall id :: id in sys.world.store.states && sys.world.store.states[id].Failed? ==>
         FailedRightly(c, network, limit, sys.world.store, id, sys.verdicts)
  }

  /** All workers run with the one attempt limit. */
  predicate SharesLimit(limit: nat, e: SystemEvent) {
    match e
    case Outside(outside) => outside.DoSweep? ==> outside.maxAttempts == limit
    case GiveUp(_, maxAttempts, _) => maxAttempts == limit
    case _ => true
  }

  predicate FailedByLimit(s: Store, id: string, maxAttempts: nat) {
    id in s.states && s.states[id].Failed? ==> s.states[id].attempt >= maxAttempts
  }

  lemma {:induction false} SweepFailsByLimit(s: Store, ids: seq<string>, maxAttempts: nat, now: nat, id: string)
    requires FailedByLimit(s, id, maxAttempts)
    ensures FailedByLimit(Sweep(s, ids, maxAttempts, now).store, id, maxAttempts)
    decreases |ids|
  {
    if ids != [] {
      SweepFailsByLimit(s, ids[..|ids| - 1], maxAttempts, now, id);
      SweepOneFailsByLimit(Sweep(s, ids[..|ids| - 1], maxAttempts, now).store, ids[|ids| - 1], maxAttempts, now, id);
    }
  }

  lemma SweepOneFailsByLimit(s: Store, last: string, maxAttempts: nat, now: nat, id: string)
    requires FailedByLimit(s, id, maxAttempts)
    ensures FailedByLimit(SweepOne(s, last, maxAttempts, now).store, id, maxAttempts)
  {
  }

  /** What newly fails a job. */
  lemma OnlyTheseFail(limit: nat, w: World, e: Event, id: string)
    requires Consistent(limit, w) && Enabled(limit, w, e)
    requires id in Apply(w, e).store.states && Apply(w, e).store.states[id].Failed?
    requires id !in w.store.states || !w.store.states[id].Failed?
    ensures var s' := Apply(w, e).store;
            || (e.DoSweep? && s'.states[id].attempt >= e.maxAttempts)
            || (e.DoFailInvalid? && e.id == id && id !in s'.results)
            || (e.DoFinishError? && e.id == id && !(e.retryable && s'.states[id].attempt < e.maxAttempts)
                && s'.states[id].error == e.error && Lookup(s'.results, id) == Some(e.result))
  {
    assert JobConsistent(limit, w, id);
    match e
    case DoSweep(ids, _, maxAttempts) => SweepFailsByLimit(w.store, ids, maxAttempts, w.Now(), id);
    case DoClaim(worker, lease, leaseMs) => ClaimTakesHead(limit, w, worker, lease, w.Now() + leaseMs);
    case _ =>
  }

  /** What an honest answer is classified as when it is not accepted. */
  lemma AnswerReason(c: Crypto, network: string, job: ProofJob, identity: DaemonIdentity, work: Work)
    requires IdentityMatches(job, identity) && FromGenerateProof(work)
    ensures match Classify(job, Answer(identity, job.request, work))
            case Success(_) => true
            case Failure(failure) => failure == FailureOf(failure.reason) && Sound(c, network, job, failure.reason)
  {
    ClassifyAnswer(job, identity, work);
  }

  lemma ChatTells(c: Crypto, network: string, s: Store, agent: Agent, te: TalkEvent, stderr: string, made: set<Artifact>,
                  verdicts: set<(string, Reason)>)
    requires AgentOk(c, network, s, agent, made) && TalkEnabled(network, agent.talk, te)
    requires te.Reject? && te.reason.JobRejected? ==>
               agent.hold.Holding? && agent.hold.job == te.job && ValidateJob(c, te.job, network) == Rejected(te.reason.why)
    requires HoldTells(c, network, s, agent.hold, verdicts)
    ensures var h := HoldAfter(network, agent, te, stderr); HoldTells(c, network, s, h, verdicts + VerdictOf(h))
  {
    if te.ReadAnswer? && agent.hold.Holding? {
      var p, job := agent.talk.daemon.value, agent.talk.phase.job;
      var work := WorkBehind(p, job, made);
      AnswerReason(c, network, job, p.identity, work);
    }
  }

  lemma HoldTellsOn(c: Crypto, network: string, s: Store, s': Store, h: Hold, v: set<(string, Reason)>, v': set<(string, Reason)>)
    requires HoldTells(c, network, s, h, v) && v <= v'
    requires forall id :: id in s.payloads ==> Lookup(s'.payloads, id) == Lookup(s.payloads, id)
    ensures HoldTells(c, network, s', h, v')
  {
    if h.Malformed? { assert Lookup(s'.payloads, h.jobId) == Lookup(s.payloads, h.jobId); }
  }

  lemma ClaimTells(c: Crypto, network: string, limit: nat, w: World, worker: string, lease: string, leaseMs: nat,
                   verdicts: set<(string, Reason)>)
    requires Consistent(limit, w)
    ensures var (s', reply) := Claim(w.store, worker, lease, w.Now() + leaseMs);
            HoldTells(c, network, s', HoldOf(reply, lease), verdicts)
  {
    ClaimTakesHead(limit, w, worker, lease, w.Now() + leaseMs);
  }

  lemma OwnAgentTells(c: Crypto, network: string, limit: nat, sys: System, e: SystemEvent, a: string)
    requires SystemOk(c, network, limit, sys) && SystemEnabled(c, network, limit, sys, e)
    requires a in sys.agents ==> HoldTells(c, network, sys.world.store, sys.agents[a].hold, sys.verdicts)
    requires About(e, a)
    ensures var sys' := SystemStep(network, sys, e);
            a in sys'.agents && HoldTells(c, network, sys'.world.store, sys'.agents[a].hold, sys'.verdicts)
  {
    match e
    case ClaimJob(_, lease, leaseMs) =>
      ClaimTells(c, network, limit, sys.world, sys.agents[a].worker, lease, leaseMs, sys.verdicts);
    case Chat(_, te, stderr) =>
      ChatTells(c, network, sys.world.store, sys.agents[a], te, stderr, sys.made, sys.verdicts);
    case _ =>
  }

  lemma OtherAgentTells(c: Crypto, network: string, limit: nat, sys: System, e: SystemEvent, a: string)
    requires 1 <= limit && SystemOk(c, network, limit, sys) && SystemEnabled(c, network, limit, sys, e)
    requires a in sys.agents && HoldTells(c, network, sys.world.store, sys.agents[a].hold, sys.verdicts)
    ensures var sys' := SystemStep(network, sys, e);
            HoldTells(c, network, sys'.world.store, sys.agents[a].hold, sys'.verdicts)
  {
    var sys' := SystemStep(network, sys, e);
    WorldPart(c, network, limit, sys, e);
    PayloadsStay(limit, sys.world, sys'.world);
    HoldTellsOn(c, network, sys.world.store, sys'.world.store, sys.agents[a].hold, sys.verdicts, sys'.verdicts);
  }

  lemma FailedRightlyOn(c: Crypto, network: string, limit: nat, w: World, w': World, id: string,
                        v: set<(string, Reason)>, v': set<(string, Reason)>)
    requires Evolves(w, w') && v <= v' && id in w.store.states && w.store.states[id].Failed?
    requires FailedRightly(c, network, limit, w.store, id, v)
    ensures id in w'.store.states && w'.store.states[id].Failed? && FailedRightly(c, network, limit, w'.store, id, v')
  {
    assert JobEvolves(w, w', id);
    if reason :| FailedFor(c, network, w.store, id, v, reason) {
      assert FailedFor(c, network, w'.store, id, v', reason);
    }
  }

  lemma NewlyFailed(c: Crypto, network: string, limit: nat, sys: System, e: SystemEvent, id: string)
    requires 1 <= limit && SystemOk(c, network, limit, sys) && SystemEnabled(c, network, limit, sys, e) && SharesLimit(limit, e)
    requires FailuresOk(c, network, limit, sys) && Call(sys, e).Some?
    requires id !in sys.world.store.states || !sys.world.store.states[id].Failed?
    requires var s' := SystemStep(network, sys, e).world.store; id in s'.states && s'.states[id].Failed?
    ensures FailedRightly(c, network, limit, SystemStep(network, sys, e).world.store, id, sys.verdicts)
  {
    var call, s' := Call(sys, e).value, SystemStep(network, sys, e).world.store;
    OnlyTheseFail(limit, sys.world, call, id);
    StepKeeps(limit, sys.world, call);
    PayloadsStay(limit, sys.world, SystemStep(network, sys, e).world);
    if call.DoFinishError? && s'.states[id].attempt < limit {
      var h := sys.agents[e.a].hold;
      assert HoldTells(c, network, sys.world.store, h, sys.verdicts);
      assert FailedFor(c, network, s', id, sys.verdicts, h.failure.reason);
    } else if call.DoFailInvalid? {
      assert HoldTells(c, network, sys.world.store, sys.agents[e.a].hold, sys.verdicts);
    }
  }

  lemma FailuresStep(c: Crypto, network: string, limit: nat, sys: System, e: SystemEvent)
    requires 1 <= limit && SystemOk(c, network, limit, sys) && SystemEnabled(c, network, limit, sys, e) && SharesLimit(limit, e)
    requires FailuresOk(c, network, limit, sys)
    ensures FailuresOk(c, network, limit, SystemStep(network, sys, e))
  {
    var sys' := SystemStep(network, sys, e);
    OthersStay(c, network, limit, sys, e);
    forall a | a in sys'.agents ensures HoldTells(c, network, sys'.world.store, sys'.agents[a].hold, sys'.verdicts) {
      if About(e, a) {
        OwnAgentTells(c, network, limit, sys, e, a);
      } else {
        OtherAgentTells(c, network, limit, sys, e, a);
      }
    }
    WorldPart(c, network, limit, sys, e);
    forall id | id in sys'.world.store.states && sys'.world.store.states[id].Failed?
      ensures FailedRightly(c, network, limit, sys'.world.store, id, sys'.verdicts)
    {
      if id in sys.world.store.states && sys.world.store.states[id].Failed? {
        FailedRightlyOn(c, network, limit, sys.world, sys'.world, id, sys.verdicts, sys'.verdicts);
      } else {
        NewlyFailed(c, network, limit, sys, e, id);
      }
    }
  }

  lemma {:induction false} FailuresRun(c: Crypto, network: string, limit: nat, sys: System, es: seq<SystemEvent>)
    requires 1 <= limit && SystemOk(c, network, limit, sys) && SystemPossible(c, network, limit, sys, es)
    requires FailuresOk(c, network, limit, sys) && forall i :: 0 <= i < |es| ==> SharesLimit(limit, es[i])
    ensures FailuresOk(c, network, limit, SystemRun(c, network, limit, sys, es))
    decreases |es|
  {
    if es != [] {
      SystemStepOk(c, network, limit, sys, es[0]);
      FailuresStep(c, network, limit, sys, es[0]);
      FailuresRun(c, network, limit, SystemStep(network, sys, es[0]), es[1..]);
    }
  }

  /** In every state the whole system can reach with one attempt limit, a job that has failed with attempts
      left was malformed, and has no result; or its result reports a permanent reason for which an attempt at
      it failed: the job is rejected by its own validation, it does not match the daemon, its request cannot
      be sent, the daemon reported bad input or a failed proof, or a proof of the wrong size. */
  lemma FailedMeans(c: Crypto, network: string, limit: nat, es: seq<SystemEvent>, id: string)
    requires 1 <= limit && SystemPossible(c, network, limit, Initial, es)
    requires forall i :: 0 <= i < |es| ==> SharesLimit(limit, es[i])
    ensures var sys := SystemRun(c, network, limit, Initial, es);
            id in sys.world.store.states && sys.world.store.states[id].Failed? ==>
              FailedRightly(c, network, limit, sys.world.store, id, sys.verdicts)
  {
    FailuresRun(c, network, limit, Initial, es);
  }

  // ---------------------------------------------------------------- how an attempt ends

  /** Some run of the whole system, all workers with the one attempt limit, comes to `sys`. */
  ghost predicate FleetComesTo(c: Crypto, network: string, limit: nat, sys: System) {
    exists es ::
      && SystemPossible(c, network, limit, Initial, es) && (forall i :: 0 <= i < |es| ==> SharesLimit(limit, es[i]))
      && SystemRun(c, network, limit, Initial, es) == sys
  }

  lemma FleetOk(c: Crypto, network: string, limit: nat, sys: System)
    requires 1 <= limit && FleetComesTo(c, network, limit, sys)
    ensures SystemOk(c, network, limit, sys) && FailuresOk(c, network, limit, sys)
  {
    var es :| && SystemPossible(c, network, limit, Initial, es) && (forall i :: 0 <= i < |es| ==> SharesLimit(limit, es[i]))
              && SystemRun(c, network, limit, Initial, es) == sys;
    SystemRunOk(c, network, limit, Initial, es);
    FailuresRun(c, network, limit, Initial, es);
  }

  /** The job is claimed by this worker under this lease, which has not run out. */
  predicate LiveClaim(w: World, id: string, worker: string, lease: string) {
    && id in w.store.states && w.store.states[id].Claimed?
    && w.store.states[id].workerId == worker && w.store.states[id].leaseId == lease
    && w.store.states[id].leaseExpiresMs > w.nowUs / 1000
  }

  /** What FINISH_ERROR does, under a live claim and otherwise. */
  lemma ErrorDecides(limit: nat, w: World, e: Event)
    requires Consistent(limit, w) && e.DoFinishError?
    ensures var (s, s') := (w.store, Apply(w, e).store);
            if !LiveClaim(w, e.id, e.worker, e.lease) then Apply(w, e) == w
            else if w.store.states[e.id].attempt < e.maxAttempts && e.retryable then
              Lookup(s'.states, e.id) == Some(Queued) && s'.queue == s.queue + [e.id] && e.id !in s'.results
            else
              && Lookup(s'.states, e.id) == Some(Failed(w.nowUs / 1000, s.states[e.id].attempt, e.error))
              && Lookup(s'.results, e.id) == Some(e.result) && s'.notify == [e.id] + s.notify && s'.queue == s.queue
  {
    assert JobConsistent(limit, w, e.id);
    AcceptedExactlyWhen(w, e);
    if Reply(w, e) != 0 { AcceptedWrites(w, e); }
  }

  lemma GiveUpCall(c: Crypto, network: string, limit: nat, sys: System, a: string, error: string)
    requires 1 <= limit && FailuresOk(c, network, limit, sys) && SystemEnabled(c, network, limit, sys, GiveUp(a, limit, error))
    ensures a in sys.agents && sys.agents[a].hold.Failing?
    ensures var h := sys.agents[a].hold;
            && h.failure == FailureOf(h.failure.reason)
            && Call(sys, GiveUp(a, limit, error)) ==
                 Some(DoFinishError(h.job.jobId, sys.agents[a].worker, h.lease, h.failure.retryable, limit,
                                    ResultDoc(IdentityOf(h.job), Errored(error)), error))
            && SystemStep(network, sys, GiveUp(a, limit, error)).world
                 == Apply(sys.world, Call(sys, GiveUp(a, limit, error)).value)
  {
    assert HoldTells(c, network, sys.world.store, sys.agents[a].hold, sys.verdicts);
  }

  /** In every state the whole system can reach with one attempt limit, a failure that a worker reports under a
      live claim fails the job, with its error and result, if and only if the reason is permanent or this was the
      last attempt; else the job goes to the end of the queue, and nothing is stored. Not permanent are: a pipe
      that broke or was too slow, a daemon that went away, a lease that could not be renewed, and a timeout that
      the daemon reports. A report under any other claim changes nothing. */
  lemma GiveUpDecides(c: Crypto, network: string, limit: nat, sys: System, a: string, error: string)
    requires 1 <= limit && FleetComesTo(c, network, limit, sys)
    requires SystemEnabled(c, network, limit, sys, GiveUp(a, limit, error))
    ensures a in sys.agents && sys.agents[a].hold.Failing?
    ensures sys.agents[a].hold.failure.reason.DaemonReported? ==> error == sys.agents[a].hold.failure.reason.text
    ensures var (w, w', h) := (sys.world, SystemStep(network, sys, GiveUp(a, limit, error)).world, sys.agents[a].hold);
            var (id, reason) := (h.job.jobId, h.failure.reason);
            if !LiveClaim(w, id, sys.agents[a].worker, h.lease) then w' == w
            else if w.store.states[id].attempt < limit
                 && (reason.WriteFailed? || reason.WriteTimedOut? || reason.ResponseTimedOut? || reason.DaemonExited?
                     || reason.ProtocolBroken? || reason.LeaseFenced? || reason.HeartbeatGaveUp?
                     || (reason.DaemonReported? && (reason.code.ExecuteTimeout? || reason.code.ProveTimeout?)))
            then
              Lookup(w'.store.states, id) == Some(Queued) && w'.store.queue == w.store.queue + [id] && id !in w'.store.results
            else
              && Lookup(w'.store.states, id) == Some(Failed(w.nowUs / 1000, w.store.states[id].attempt, error))
              && Lookup(w'.store.results, id) == Some(ResultDoc(IdentityOf(h.job), Errored(error)))
              && w'.store.notify == [id] + w.store.notify && w'.store.queue == w.store.queue
  {
    FleetOk(c, network, limit, sys);
    GiveUpCall(c, network, limit, sys, a, error);
    RetriedExactlyWhen(sys.agents[a].hold.failure.reason);
    ErrorDecides(limit, sys.world, Call(sys, GiveUp(a, limit, error)).value);
  }

  /** The attempt has ended in a proof. */
  predicate EndsInProof(te: TalkEvent, work: Work) {
    te.ReadAnswer? && work.Artifacts? && |work.proof| == 356 && |work.publicValues| == 32
  }

  /** The end of an attempt: `e` is what ends it, and `work` what the daemon's answer, if one is read, was about. */
  ghost predicate AttemptEnding(c: Crypto, network: string, limit: nat, sys: System, e: SystemEvent, work: Work) {
    && e.Chat? && (e.te.Reject? || e.te.BreakOff? || e.te.ReadAnswer?)
    && SystemEnabled(c, network, limit, sys, e) && sys.agents[e.a].hold.Holding?
    && LiveClaim(sys.world, sys.agents[e.a].hold.job.jobId, sys.agents[e.a].worker, sys.agents[e.a].hold.lease)
    && (e.te.ReadAnswer? ==>
          && FromGenerateProof(work)
          && var daemon := sys.agents[e.a].talk.daemon.value;
             daemon.unread[0] == Answer(daemon.identity, sys.agents[e.a].hold.job.request, work))
  }

  /** What the worker then has in memory: the proof, or a failure that is to be retried only after a broken attempt
      or a timeout, and carries the daemon's words if there are any. */
  predicate LeftWith(h: Hold, job: ProofJob, lease: string, te: TalkEvent, stderr: string, work: Work, error: string) {
    if EndsInProof(te, work) then
      h == Proved(job, lease, DaemonProofResponse("proof", job.request.requestId, true, job.network, job.guestId,
                                                  job.blockElfSha256, job.vkeyHash, 356, HexEncode(work.proof),
                                                  32, HexEncode(work.publicValues)), stderr)
    else
      && h.Failing? && h.job == job && h.lease == lease && MessageOf(h.failure.reason, error)
      && h.failure.retryable == (te.BreakOff? || (te.ReadAnswer? && work.TimedOut?))
  }

  lemma AnswerLeaves(network: string, agent: Agent, stderr: string, work: Work, error: string)
    requires TalkEnabled(network, agent.talk, ReadAnswer) && agent.hold.Holding? && agent.hold.job == agent.talk.phase.job
    requires IdentityMatches(agent.hold.job, agent.talk.daemon.value.identity) && FromGenerateProof(work)
    requires agent.talk.daemon.value.unread[0] == Answer(agent.talk.daemon.value.identity, agent.hold.job.request, work)
    requires !work.Artifacts? ==> error == work.text
    ensures LeftWith(HoldAfter(network, agent, ReadAnswer, stderr), agent.hold.job, agent.hold.lease, ReadAnswer, stderr, work, error)
  {
    var outcome := Classify(agent.hold.job, agent.talk.daemon.value.unread[0]);
    AnswerVerdict(agent.hold.job, agent.talk.daemon.value.identity, work);
    if outcome.Failure? {
      RetriedExactlyWhen(outcome.error.reason);
    }
  }

  lemma BreakLeaves(network: string, agent: Agent, te: TalkEvent, stderr: string, work: Work, error: string)
    requires TalkEnabled(network, agent.talk, te) && agent.hold.Holding? && (te.Reject? || te.BreakOff?)
    ensures LeftWith(HoldAfter(network, agent, te, stderr), agent.hold.job, agent.hold.lease, te, stderr, work, error)
  {
    RetriedExactlyWhen(te.reason);
  }

  lemma EndingLeaves(c: Crypto, network: string, limit: nat, sys: System, e: SystemEvent, work: Work, error: string)
    requires SystemOk(c, network, limit, sys) && AttemptEnding(c, network, limit, sys, e, work)
    requires e.te.ReadAnswer? && !work.Artifacts? ==> error == work.text
    ensures var (sys', hold) := (SystemStep(network, sys, e), sys.agents[e.a].hold);
            && sys'.world == sys.world && e.a in sys'.agents && sys'.agents[e.a].worker == sys.agents[e.a].worker
            && LeftWith(sys'.agents[e.a].hold, hold.job, hold.lease, e.te, e.stderr, work, error)
  {
    if e.te.ReadAnswer? {
      AnswerLeaves(network, sys.agents[e.a], e.stderr, work, error);
    } else {
      BreakLeaves(network, sys.agents[e.a], e.te, e.stderr, work, error);
    }
  }

  /** A worker with a failure can report it, and this is the call. */
  lemma GiveUpIs(c: Crypto, network: string, limit: nat, sys: System, a: string, error: string)
    requires 1 <= limit && a in sys.agents && sys.agents[a].hold.Failing? && MessageOf(sys.agents[a].hold.failure.reason, error)
    ensures SystemEnabled(c, network, limit, sys, GiveUp(a, limit, error))
    ensures var h := sys.agents[a].hold;
            SystemStep(network, sys, GiveUp(a, limit, error)).world ==
              Apply(sys.world, DoFinishError(h.job.jobId, sys.agents[a].worker, h.lease, h.failure.retryable, limit,
                                             ResultDoc(IdentityOf(h.job), Errored(error)), error))
  {
  }

  /** An attempt under a live claim that ends in a proof of the right sizes completes its job, once the worker
      publishes, with that proof byte for byte, at that time and attempt, in a result with the job's identity. */
  lemma ProofSettles(c: Crypto, network: string, limit: nat, sys: System, e: SystemEvent, work: Work)
    requires 1 <= limit && FleetComesTo(c, network, limit, sys)
    requires AttemptEnding(c, network, limit, sys, e, work) && EndsInProof(e.te, work)
    ensures var sys1 := SystemStep(network, sys, e);
            SystemEnabled(c, network, limit, sys1, Publish(e.a))
            && var (w, s') := (sys.world, SystemStep(network, sys1, Publish(e.a)).world.store);
               var job := sys.agents[e.a].hold.job;
               && Lookup(s'.states, job.jobId) == Some(Completed(w.nowUs / 1000, w.store.states[job.jobId].attempt))
               && Lookup(s'.results, job.jobId) ==
                    Some(ResultDoc(IdentityOf(job),
                                   Succeeded(DaemonProofResponse("proof", job.request.requestId, true, job.network, job.guestId,
                                                                 job.blockElfSha256, job.vkeyHash, 356, HexEncode(work.proof),
                                                                 32, HexEncode(work.publicValues)), e.stderr)))
               && s'.notify == [job.jobId] + w.store.notify
  {
    FleetOk(c, network, limit, sys);
    EndingLeaves(c, network, limit, sys, e, work, "");
    var call := Call(SystemStep(network, sys, e), Publish(e.a)).value;
    AcceptedExactlyWhen(sys.world, call);
    AcceptedWrites(sys.world, call);
  }

  /** An attempt under a live claim that ends otherwise, once the worker reports it: a job that its own validation
      or identity check rejects, whose request cannot be sent, or whose work failed for good or gave a proof of
      the wrong size, fails at once; after a broken attempt or a timeout it goes to the end of the queue, unless
      it was the last attempt. What the daemon reported is the error that is stored. */
  lemma FailureSettles(c: Crypto, network: string, limit: nat, sys: System, e: SystemEvent, work: Work, error: string)
    requires 1 <= limit && FleetComesTo(c, network, limit, sys)
    requires AttemptEnding(c, network, limit, sys, e, work) && !EndsInProof(e.te, work)
    requires e.te.ReadAnswer? && !work.Artifacts? ==> error == work.text
    ensures var (sys1, report) := (SystemStep(network, sys, e), GiveUp(e.a, limit, error));
            SystemEnabled(c, network, limit, sys1, report)
            && var (w, s') := (sys.world, SystemStep(network, sys1, report).world.store);
               var (job, attempt) := (sys.agents[e.a].hold.job, w.store.states[sys.agents[e.a].hold.job.jobId].attempt);
               if (e.te.BreakOff? || (e.te.ReadAnswer? && work.TimedOut?)) && attempt < limit then
                 Lookup(s'.states, job.jobId) == Some(Queued) && s'.queue == w.store.queue + [job.jobId] && job.jobId !in s'.results
               else
                 && Lookup(s'.states, job.jobId) == Some(Failed(w.nowUs / 1000, attempt, error))
                 && Lookup(s'.results, job.jobId) == Some(ResultDoc(IdentityOf(job), Errored(error)))
                 && s'.notify == [job.jobId] + w.store.notify && s'.queue == w.store.queue
  {
    FleetOk(c, network, limit, sys);
    EndingLeaves(c, network, limit, sys, e, work, error);
    var sys1 := SystemStep(network, sys, e);
    var h := sys1.agents[e.a].hold;
    GiveUpIs(c, network, limit, sys1, e.a, error);
    ErrorDecides(limit, sys.world, DoFinishError(h.job.jobId, sys1.agents[e.a].worker, h.lease, h.failure.retryable, limit,
                                                 ResultDoc(IdentityOf(h.job), Errored(error)), error));
  }

  // ---------------------------------------------------------------- the other calls

  lemma ClaimIs(network: string, sys: System, a: string, lease: string, leaseMs: nat)
    requires a in sys.agents
    ensures var sys' := SystemStep(network, sys, ClaimJob(a, lease, leaseMs));
            && sys'.world == Apply(sys.world, DoClaim(sys.agents[a].worker, lease, leaseMs))
            && a in sys'.agents
            && sys'.agents[a].hold == HoldOf(Claim(sys.world.store, sys.agents[a].worker, lease, sys.world.Now() + leaseMs).1, lease)
  {
  }

  lemma HeadGiven(limit: nat, w: World, worker: string, lease: string, leaseMs: nat)
    requires Consistent(limit, w)
    ensures var (s, s') := (w.store, Apply(w, DoClaim(worker, lease, leaseMs)).store);
            var hold := HoldOf(Claim(s, worker, lease, w.Now() + leaseMs).1, lease);
            && (s.queue == [] ==> hold == Nothing && s' == s)
            && (s.queue != [] ==>
                  var id := s.queue[0];
                  && id in s.payloads
                  && Lookup(s'.states, id) == Some(Claimed(worker, lease, w.nowUs / 1000 + leaseMs, Counter(s, id) + 1))
                  && hold == if s.payloads[id].Job? && s.payloads[id].job.jobId == id
                             then Holding(s.payloads[id].job, lease) else Malformed(id, lease))
  {
    MillisecondsOf(w.nowUs);
    ClaimTakesHead(limit, w, worker, lease, w.Now() + leaseMs);
  }

  /** A claim takes the head of the queue under the new lease, and the worker then has in memory exactly the job
      whose payload this is, or, if the payload is no job or a job of another id, that it is malformed. */
  lemma ClaimGives(network: string, limit: nat, sys: System, a: string, lease: string, leaseMs: nat)
    requires Consistent(limit, sys.world) && a in sys.agents
    ensures var (w, sys') := (sys.world, SystemStep(network, sys, ClaimJob(a, lease, leaseMs)));
            var (s, s') := (w.store, sys'.world.store);
            && a in sys'.agents
            && (s.queue == [] ==> sys'.agents[a].hold == Nothing && s' == s)
            && (s.queue != [] ==>
                  var (id, worker) := (s.queue[0], sys.agents[a].worker);
                  && id in s.payloads
                  && Lookup(s'.states, id) == Some(Claimed(worker, lease, w.nowUs / 1000 + leaseMs, Counter(s, id) + 1))
                  && sys'.agents[a].hold == if s.payloads[id].Job? && s.payloads[id].job.jobId == id
                                            then Holding(s.payloads[id].job, lease) else Malformed(id, lease))
  {
    ClaimIs(network, sys, a, lease, leaseMs);
    HeadGiven(limit, sys.world, sys.agents[a].worker, lease, leaseMs);
  }

  /** Only a payload that is no job, or a job of another id, is ever reported as malformed; under a live claim that
      fails the job without a result, and otherwise it changes nothing. */
  lemma MalformedDecides(c: Crypto, network: string, limit: nat, sys: System, a: string, error: string)
    requires 1 <= limit && FleetComesTo(c, network, limit, sys)
    requires SystemEnabled(c, network, limit, sys, GiveUpMalformed(a, error))
    ensures a in sys.agents && sys.agents[a].hold.Malformed?
    ensures var (w, w', h) := (sys.world, SystemStep(network, sys, GiveUpMalformed(a, error)).world, sys.agents[a].hold);
            && h.jobId in w.store.payloads
            && !(w.store.payloads[h.jobId].Job? && w.store.payloads[h.jobId].job.jobId == h.jobId)
            && if LiveClaim(w, h.jobId, sys.agents[a].worker, h.lease) then
                 && Lookup(w'.store.states, h.jobId) == Some(Failed(w.nowUs / 1000, w.store.states[h.jobId].attempt, error))
                 && h.jobId !in w'.store.results && w'.store.notify == [h.jobId] + w.store.notify
               else w' == w
  {
    FleetOk(c, network, limit, sys);
    var h := sys.agents[a].hold;
    assert HoldTells(c, network, sys.world.store, h, sys.verdicts);
    var call := DoFailInvalid(h.jobId, sys.agents[a].worker, h.lease, error);
    assert JobConsistent(limit, sys.world, h.jobId);
    AcceptedExactlyWhen(sys.world, call);
    if Reply(sys.world, call) != 0 { AcceptedWrites(sys.world, call); }
  }

  /** A proof published under a live claim, at whatever time, completes the job with the response and the daemon's
      stderr that the worker holds; under any other it changes nothing. */
  lemma PublishDecides(c: Crypto, network: string, limit: nat, sys: System, a: string)
    requires SystemEnabled(c, network, limit, sys, Publish(a))
    ensures a in sys.agents && sys.agents[a].hold.Proved?
    ensures var (w, w', h) := (sys.world, SystemStep(network, sys, Publish(a)).world, sys.agents[a].hold);
            var id := h.job.jobId;
            if LiveClaim(w, id, sys.agents[a].worker, h.lease) then
              w' == w.(store := w.store.(
                states := w.store.states[id := Completed(w.nowUs / 1000, w.store.states[id].attempt)],
                results := w.store.results[id := ResultDoc(IdentityOf(h.job), Succeeded(h.response, h.stderr))],
                leases := w.store.leases - {id},
                notify := [id] + w.store.notify))
            else w' == w
  {
    var h := sys.agents[a].hold;
    var call := DoComplete(h.job.jobId, sys.agents[a].worker, h.lease, ResultDoc(IdentityOf(h.job), Succeeded(h.response, h.stderr)));
    AcceptedExactlyWhen(sys.world, call);
    if Reply(sys.world, call) != 0 { AcceptedWrites(sys.world, call); }
  }

  /** When a worker can do what: start at any time; claim when it has nothing in hand, under a lease id not used
      before; renew, publish or report exactly what it has in hand, at any time, however late. */
  lemma WorkersMay(c: Crypto, network: string, limit: nat, sys: System, a: string, text: string, n: nat)
    requires a in sys.agents
    ensures SystemEnabled(c, network, limit, sys, Boot(a, text))
    ensures SystemEnabled(c, network, limit, sys, ClaimJob(a, text, n)) <==>
              sys.agents[a].hold.Nothing? && sys.agents[a].talk.phase.Between? && text !in sys.world.issued
    ensures SystemEnabled(c, network, limit, sys, Beat(a, n)) <==> sys.agents[a].hold.Holding? || sys.agents[a].hold.Proved?
    ensures SystemEnabled(c, network, limit, sys, Publish(a)) <==> sys.agents[a].hold.Proved?
    ensures SystemEnabled(c, network, limit, sys, GiveUpMalformed(a, text)) <==> sys.agents[a].hold.Malformed?
    ensures SystemEnabled(c, network, limit, sys, GiveUp(a, n, text)) <==>
              && sys.agents[a].hold.Failing? && 1 <= n <= limit
              && (sys.agents[a].hold.failure.reason.DaemonReported? ==> text == sys.agents[a].hold.failure.reason.text)
    ensures SystemEnabled(c, network, limit, sys, Forget(a)) <==> sys.agents[a].talk.phase.Between?
  {
  }

  /** A process that starts, or starts again after a crash, has no claim in memory and no daemon; one that is done with
      a claim keeps its daemon. Neither tells Redis. */
  lemma MemoryIsLost(network: string, sys: System, a: string, worker: string)
    ensures SystemStep(network, sys, Boot(a, worker))
         == sys.(agents := sys.agents[a := Agent(worker, Talk(None, Between), Nothing)])
    ensures a in sys.agents ==>
              SystemStep(network, sys, Forget(a))
                == sys.(agents := sys.agents[a := Agent(sys.agents[a].worker, sys.agents[a].talk, Nothing)])
  {
  }

  /** A heartbeat moves the expiry of a live claim to one lease from now, in the state and in the lease set, and
      does nothing to any other. */
  lemma BeatDecides(c: Crypto, network: string, limit: nat, sys: System, a: string, leaseMs: nat)
    requires SystemEnabled(c, network, limit, sys, Beat(a, leaseMs))
    ensures a in sys.agents && (sys.agents[a].hold.Holding? || sys.agents[a].hold.Proved?)
    ensures var (w, w', h) := (sys.world, SystemStep(network, sys, Beat(a, leaseMs)).world, sys.agents[a].hold);
            var (id, worker, expires) := (h.job.jobId, sys.agents[a].worker, w.nowUs / 1000 + leaseMs);
            if LiveClaim(w, id, worker, h.lease) then
              w' == w.(store := w.store.(states := w.store.states[id := Claimed(worker, h.lease, expires, w.store.states[id].attempt)],
                                         leases := w.store.leases[id := expires]))
            else w' == w
  {
    var h := sys.agents[a].hold;
    var call := DoHeartbeat(h.job.jobId, sys.agents[a].worker, h.lease, leaseMs);
    AcceptedExactlyWhen(sys.world, call);
    if Reply(sys.world, call) != 0 { AcceptedWrites(sys.world, call); }
  }

  // ---------------------------------------------------------------- and completion does happen

  /** Some run of the whole system comes to `sys`. */
  ghost predicate SystemComesTo(c: Crypto, network: string, limit: nat, sys: System) {
    exists es :: SystemPossible(c, network, limit, Initial, es) && SystemRun(c, network, limit, Initial, es) == sys
  }

  lemma {:induction false} OneMoreSystemEvent(c: Crypto, network: string, limit: nat, sys: System, es: seq<SystemEvent>,
                                              e: SystemEvent)
    requires SystemPossible(c, network, limit, sys, es)
    requires SystemEnabled(c, network, limit, SystemRun(c, network, limit, sys, es), e)
    ensures SystemPossible(c, network, limit, sys, es + [e])
    ensures SystemRun(c, network, limit, sys, es + [e]) == SystemStep(network, SystemRun(c, network, limit, sys, es), e)
    decreases |es|
  {
    if es == [] {
      assert (es + [e])[1..] == [];
    } else {
      assert (es + [e])[1..] == es[1..] + [e];
      OneMoreSystemEvent(c, network, limit, SystemStep(network, sys, es[0]), es[1..], e);
    }
  }

  lemma SystemComesFurther(c: Crypto, network: string, limit: nat, sys: System, e: SystemEvent)
    requires SystemComesTo(c, network, limit, sys) && SystemEnabled(c, network, limit, sys, e)
    ensures SystemComesTo(c, network, limit, SystemStep(network, sys, e))
  {
    var es :| SystemPossible(c, network, limit, Initial, es) && SystemRun(c, network, limit, Initial, es) == sys;
    OneMoreSystemEvent(c, network, limit, Initial, es, e);
  }

  /** The job submitted, and one worker booted, with `talk` between it and its daemon. */
  function Submitted(job: ProofJob, talk: Talk): System {
    System(World(Store([job.jobId], [], map[], map[], map[job.jobId := Job(job)], map[job.jobId := Queued], map[]), 0, {}),
           map["p" := Agent("worker", talk, Nothing)], {}, {})
  }

  /** The job claimed by that worker. */
  function Taken(job: ProofJob, talk: Talk, hold: Hold, made: set<Artifact>): System {
    var id := job.jobId;
    System(World(Store([], [], map[id := 1000], map[id := 1], map[id := Job(job)],
                       map[id := Claimed("worker", "lease", 1000, 1)], map[]), 0, {"lease"}),
           map["p" := Agent("worker", talk, hold)], made, {})
  }

  function Fresh(identity: DaemonIdentity): Talk { Talk(Some(Pipe(identity, [], false, 0, [], None)), Between) }

  lemma SubmitsAndBoots(c: Crypto, network: string, limit: nat, job: ProofJob)
    ensures SystemComesTo(c, network, limit, Submitted(job, Quiet))
  {
    var a, b := Outside(Submit(job.jobId, Job(job))), Boot("p", "worker");
    var s1 := System(Submitted(job, Quiet).world, map[], {}, {});
    assert SystemPossible(c, network, limit, Initial, []) && SystemRun(c, network, limit, Initial, []) == Initial;
    SystemComesFurther(c, network, limit, Initial, a);
    assert SystemStep(network, Initial, a) == s1;
    SystemComesFurther(c, network, limit, s1, b);
    assert SystemStep(network, s1, b) == Submitted(job, Quiet);
  }

  lemma StartsDaemon(c: Crypto, network: string, limit: nat, job: ProofJob, identity: DaemonIdentity)
    requires Starts(network, identity)
    ensures SystemComesTo(c, network, limit, Submitted(job, Fresh(identity)))
  {
    var e := Chat("p", StartDaemon(identity), "");
    SubmitsAndBoots(c, network, limit, job);
    SystemComesFurther(c, network, limit, Submitted(job, Quiet), e);
    assert SystemStep(network, Submitted(job, Quiet), e) == Submitted(job, Fresh(identity));
  }

  lemma ClaimsSubmitted(job: ProofJob, talk: Talk)
    ensures Claim(Submitted(job, talk).world.store, "worker", "lease", 1000)
         == (Taken(job, talk, Nothing, {}).world.store, Some(ClaimReply(job.jobId, Job(job), 1)))
  {
    var (s, id) := (Submitted(job, talk).world.store, job.jobId);
    var claimed := Claimed("worker", "lease", 1000, 1);
    assert [id][1..] == [];
    assert s.attempts[id := 1] == map[id := 1] && s.leases[id := 1000] == map[id := 1000];
    assert s.states[id := claimed] == map[id := claimed];
  }

  lemma ClaimStep(network: string, job: ProofJob, talk: Talk)
    ensures SystemStep(network, Submitted(job, talk), ClaimJob("p", "lease", 1000)) == Taken(job, talk, Holding(job, "lease"), {})
  {
    var s, e := Submitted(job, talk), ClaimJob("p", "lease", 1000);
    ClaimsSubmitted(job, talk);
    assert s.world.Now() == 0 && {} + {"lease"} == {"lease"};
    assert SystemStep(network, s, e).agents == map["p" := Agent("worker", talk, Holding(job, "lease"))];
  }

  lemma ClaimEnabled(c: Crypto, network: string, limit: nat, job: ProofJob, talk: Talk)
    requires talk.phase.Between?
    ensures SystemEnabled(c, network, limit, Submitted(job, talk), ClaimJob("p", "lease", 1000))
  {
  }

  lemma Claims(c: Crypto, network: string, limit: nat, job: ProofJob, identity: DaemonIdentity)
    requires Starts(network, identity)
    ensures SystemComesTo(c, network, limit, Taken(job, Fresh(identity), Holding(job, "lease"), {}))
  {
    StartsDaemon(c, network, limit, job, identity);
    ClaimEnabled(c, network, limit, job, Fresh(identity));
    SystemComesFurther(c, network, limit, Submitted(job, Fresh(identity)), ClaimJob("p", "lease", 1000));
    ClaimStep(network, job, Fresh(identity));
  }

  /** One step on the pipe after the claim. */
  lemma Chats(c: Crypto, network: string, limit: nat, job: ProofJob, talk: Talk, hold: Hold, made: set<Artifact>,
              te: TalkEvent, stderr: string)
    requires SystemComesTo(c, network, limit, Taken(job, talk, hold, made)) && TalkEnabled(network, talk, te) && !te.Reject?
    requires te.BeginWrite? ==> hold.Holding? && hold.job == te.job && ValidateJob(c, te.job, network).Accepted?
    requires !HoldAfter(network, Agent("worker", talk, hold), te, stderr).Failing?
    ensures SystemComesTo(c, network, limit,
                          Taken(job, TalkStep(network, talk, te), HoldAfter(network, Agent("worker", talk, hold), te, stderr),
                                Produced(network, talk, te, made)))
  {
    var s, e := Taken(job, talk, hold, made), Chat("p", te, stderr);
    SystemComesFurther(c, network, limit, s, e);
    var agent := Agent("worker", TalkStep(network, talk, te), HoldAfter(network, Agent("worker", talk, hold), te, stderr));
    assert SystemStep(network, s, e).agents == map["p" := agent];
  }

  /** The daemon asked for the job, and its answer on the pipe. */
  function Answered(identity: DaemonIdentity, job: ProofJob, work: Work): Talk {
    Talk(Some(Pipe(identity, [job.request], false, 1, [Answer(identity, job.request, work)], None)), Waiting(job))
  }

  lemma AsksAndProves(c: Crypto, network: string, limit: nat, job: ProofJob, identity: DaemonIdentity, work: Work)
    requires ValidateJob(c, job, network).Accepted? && IdentityMatches(job, identity) && work.Artifacts?
    ensures SystemComesTo(c, network, limit,
                          Taken(job, Answered(identity, job, work), Holding(job, "lease"),
                                {Artifact(job.request, work.proof, work.publicValues)}))
  {
    var hold, writing := Holding(job, "lease"), Talk(Fresh(identity).daemon, Writing(job));
    MatchingIdentityStarts(c, job, network, identity);
    Claims(c, network, limit, job, identity);
    Chats(c, network, limit, job, Fresh(identity), hold, {}, BeginWrite(job), "");
    assert TalkStep(network, Fresh(identity), BeginWrite(job)) == writing;
    Chats(c, network, limit, job, writing, hold, {}, EndWrite, "");
    assert [] + [job.request] == [job.request];
    assert TalkStep(network, writing, EndWrite) == Asked(identity, job);
    Chats(c, network, limit, job, Asked(identity, job), hold, {}, DaemonAnswers(work), "");
    assert [] + [Answer(identity, job.request, work)] == [Answer(identity, job.request, work)];
    assert TalkStep(network, Asked(identity, job), DaemonAnswers(work)) == Answered(identity, job, work);
    assert Produced(network, Asked(identity, job), DaemonAnswers(work), {})
        == {Artifact(job.request, work.proof, work.publicValues)};
  }

  /** The response line for these artifacts, as the worker decodes it. */
  function ResponseFor(identity: DaemonIdentity, job: ProofJob, work: Work): DaemonProofResponse
    requires work.Artifacts?
  {
    Answer(identity, job.request, work).proof
  }

  lemma Reads(c: Crypto, network: string, limit: nat, job: ProofJob, identity: DaemonIdentity, work: Work, stderr: string)
    requires ValidateJob(c, job, network).Accepted? && IdentityMatches(job, identity) && work.Artifacts?
    requires |work.proof| == GROTH16_PROOF_BYTES && |work.publicValues| == PUBLIC_VALUES_BYTES
    ensures SystemComesTo(c, network, limit,
                          Taken(job, Talk(Some(AfterReading(Answered(identity, job, work).daemon.value)), Between),
                                Proved(job, "lease", ResponseFor(identity, job, work), stderr),
                                {Artifact(job.request, work.proof, work.publicValues)}))
  {
    AsksAndProves(c, network, limit, job, identity, work);
    ClassifyAnswer(job, identity, work);
    ClassifyExact(job, Answer(identity, job.request, work));
    Chats(c, network, limit, job, Answered(identity, job, work), Holding(job, "lease"),
          {Artifact(job.request, work.proof, work.publicValues)}, ReadAnswer, stderr);
  }

  /** The job is completed with this very proof. */
  predicate CompletedWith(s: Store, job: ProofJob, proof: seq<Byte>, values: seq<Byte>, stderr: string) {
    && job.jobId in s.states && s.states[job.jobId].Completed?
    && job.jobId in s.results && s.results[job.jobId].identity == IdentityOf(job)
    && match s.results[job.jobId].outcome
       case Succeeded(response, err) =>
         HexDecode(response.proofBytes) == Some(proof) && HexDecode(response.publicValues) == Some(values) && err == stderr
       case Errored(_) => false
  }

  /** Every acceptable job, with every daemon whose identity matches it and every proof of the right sizes,
      is completed with that proof by some run of the system. */
  lemma HonestRunCompletes(c: Crypto, network: string, limit: nat, job: ProofJob, identity: DaemonIdentity,
                           proof: seq<Byte>, values: seq<Byte>, stderr: string)
    requires ValidateJob(c, job, network).Accepted?
    requires identity == DaemonIdentity(2, "identity", job.network, job.guestId, job.blockElfSha256, job.vkeyHash)
    requires |proof| == 356 && |values| == 32
    ensures exists sys :: SystemComesTo(c, network, limit, sys) && CompletedWith(sys.world.store, job, proof, values, stderr)
  {
    var work := Artifacts(proof, values);
    Reads(c, network, limit, job, identity, work, stderr);
    var s := Taken(job, Talk(Some(AfterReading(Answered(identity, job, work).daemon.value)), Between),
                   Proved(job, "lease", ResponseFor(identity, job, work), stderr),
                   {Artifact(job.request, work.proof, work.publicValues)});
    assert s.world.Now() == 0 && Holds(s.world.store, job.jobId, "worker", "lease", 0);
    SystemComesFurther(c, network, limit, s, Publish("p"));
    EncodeThenDecode(proof);
    EncodeThenDecode(values);
    assert CompletedWith(SystemStep(network, s, Publish("p")).world.store, job, proof, values, stderr);
  }
}
