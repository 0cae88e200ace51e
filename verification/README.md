# Verification of psy-bridge-sp1's proof queue

A Dafny 4.11 model of the leased proof queue, the worker and daemon that serve it, and the byte-level code they rest on,
with proofs of what they promise. `dafny verify dfyconfig.toml` checks the whole project.

## What is modelled

Producers put proof jobs on a Redis list; any number of workers claim them under leases, renew the leases, and publish a
result, report a failure or disappear. Six Lua scripts carry the protocol; each is one atomic step.

- `LeaseQueue` gives the scripts as functions on a structured store, and runs: a start and any sequence of enabled steps.
  A worker may call any script with any arguments at any time, so retries, lost replies and stale workers are all runs.
- `LeaseQueueInvariant` holds the global invariant and proves that every script keeps it. `JobLifecycle` says, job by job,
  what each script writes and by what steps a state can change. `LeaseQueueRuns`, `ExpirySweep` and `LeaseTime` draw the
  consequences for whole runs: placement, fencing, finality, termination, order, conservation, time.
- `WorkerFleet` lets workers do only what their loop lets them do: sweep, claim after a sweep without an error, call under
  their own claim. `Progress` says which jobs such workers can still move or finish.
- `HeartbeatSchedule` is the worker's own timing: when it renews, and for which settings that is often enough.
- `RedisScripts` runs the scripts with their loops, command by command, on one flat string-keyed store, and proves each equal
  to its function. `QueueKeys` shows when that is possible and when two deployments interfere.
- `RetryLoop` is the loop around a call over an unreliable link, and what its caller is told.
- `Session` is one worker and its prover daemons on a pipe; `EndToEnd` puts any number of such workers on the shared store.
- `JobIdentity`, `Bytes`, `PublicInputs`, `BoundedStderr` and `LineReader` are the supporting algorithms.

A Rust string is the sequence of its UTF-8 code units. SHA-256 and the JSON serialisation of a request are parameters of
which nothing is assumed but their types: results that need more say "equal, or here is the collision".

Assumptions about the environment, all in `LeaseQueue.Enabled` and `LeaseQueue.Apply`:
submitted ids are new and a submission writes payload, `Queued` state and queue entry at once; payloads are never rewritten;
the Redis clock never goes back; a lease id is never used for two claims; workers may differ in `max_attempts`, and M is an
upper bound of theirs; Lua numbers are exact integers; nobody else writes these keys.

## What the proofs turned up

- `Args::validate` accepts settings with which a lease is lost (`ValidatedCanLose`). Renewals are not `heartbeat_ms` apart:
  while the request is being written they follow one interval and afterwards a fresh one whose first tick is skipped, so two
  can lie `heartbeat_ms + min(heartbeat_ms, 30 s)` apart, plus latency; and after a broken pipe the worker waits up to 5 s
  for the daemon to exit before it reports (`GapReached`, `ExitWaitCanLose`). `SurvivesExactlyWhen` has the exact condition;
  the defaults meet it with most of a minute to spare (`DefaultsSurviveExactlyWhen`).
- Renewals "less than the lease apart" do not suffice either: flooring TIME to milliseconds costs up to 999 microseconds
  (`RenewalGapExact`, `LateRenewalLosesTheJob`).
- A payload that is not JSON, left to expire at its last attempt, stays `Claimed` for ever without a lease
  (`OnePlaceExactlyForJson`, `StrandedForever`): the sweep removes the lease whether or not it could fail the job.
- A payload that is a JSON number, boolean or null, left to expire at its last attempt, makes the sweep raise at
  doge_proof_worker.rs:171, before its ZREM. From then on it is first in every batch and no sweep does anything
  (`RaisedSweepLeavesFrontJam`, `FrontJamForever`); and as `run` claims only after a sweep without an error
  (doge_proof_worker.rs:1032-1036), the whole queue stands still (`NoClaimsBehindFrontJam`, `QueueCanStandStill`).
- `complete_until_resolved` returns false for a job it has completed exactly when an attempt landed unheard
  (`OwnResultStoredExactlyWhen`, `LostReplyLooksStale`): harmless, but logged as a stale result.
- A heartbeat tick between two parts of a response line loses the first part. Later lines stay aligned
  (`CancelledReadStaysAligned`), but the tail, no JSON any more, fails the job for good whatever the answer was, and after a
  timeout the worker keeps a daemon that has exited with 75 (`LostPrefixMatters`, `TimeoutAnswerCanBeCut`).
- Payloads that are no JSON or cannot be indexed are also the only case in which a sweep reports less than it was given
  (`SweepReportsAllExactlyWhen`); and a job failed as malformed is announced without a result (`FailedWithoutResult`).
- Namespaces of different networks are disjoint for one prefix and seed, but free-text seeds can make namespaces overlap
  (`NamespacesShareExactlyWhen`, `ConfigurationsCanCoincide`).
- A daemon whose key hash begins with `0x` never starts (`StartsExactlyWhen`). README.md:195-203 of the repository allows that
  form, and shows the identity without the `protocol_version` the code requires (doge_proof_worker.rs:561-566); the model
  follows the code. gen_proof.rs:619 writes whatever SP1's `bytes32()` gives, which is not part of this model.

## Model

| member | source | states |
|---|---|---|
| RedisScripts.Redis.Guard | script/src/bin/doge_proof_worker.rs:80-87 | the check that opens four scripts succeeds exactly when the job is claimed by this worker under this lease and the lease has not run out |
| RedisScripts.RepresentsExactly | script/src/proof_protocol.rs:22-52 | a keyspace stands for a store exactly when each list, set, counter and document is under its literal key, for every job, and an empty list or sorted set is not there |
| RedisScripts.Redis.Claim | script/src/bin/doge_proof_worker.rs:48-77 | on the flat keyspace, the LPOP loop does to its namespace what the structured claim does, returns the same job and touches no other key |
| RedisScripts.Redis.Heartbeat | script/src/bin/doge_proof_worker.rs:79-93 | command by command the same as the structured heartbeat, with the same reply, and no other key changes |
| RedisScripts.Redis.Complete | script/src/bin/doge_proof_worker.rs:95-110 | the same for COMPLETE; what that stores is said by `LiveClaimChanges` |
| RedisScripts.Redis.FinishError | script/src/bin/doge_proof_worker.rs:112-132 | the same for FINISH_ERROR, with replies 0, 1 and 2 |
| RedisScripts.Redis.FailInvalid | script/src/bin/doge_proof_worker.rs:134-148 | the same for FAIL_INVALID_CLAIM |
| RedisScripts.Redis.Resolve | script/src/bin/doge_proof_worker.rs:157-189 | the body of the sweep loop decides, writes and raises as the structured sweep does for that entry |
| RedisScripts.Redis.RequeueExpired | script/src/bin/doge_proof_worker.rs:150-193 | the whole sweep loop over the reply of ZRANGEBYSCORE equals the structured sweep, with the same two counts, or the error reply and what was written before it |
| RedisScripts.Redis.Serve | script/src/bin/doge_proof_worker.rs:322-475 | every step of a run, a producer's submission and the clock included, does to its namespace what the structured run does, and touches no other key |
| RedisScripts.OtherNamespaceUnaffected | script/src/bin/doge_proof_worker.rs:322-335 | what a script does in one namespace leaves the store of any namespace with no common key as it was |
| RedisScripts.EachQueueRunsAlone | script/src/bin/doge_proof_worker.rs:1007 | however the steps of any number of queues interleave on one server, each namespace is left as a run of its own steps alone would leave it |
| RedisScripts.Redis.Drive | script/src/bin/doge_proof_worker.rs:322-475 | serving the calls of any number of queues with no common key, in whatever order, is such an interleaving, and leaves each queue where a run of its own calls leaves it |
| ExpirySweep.RangeByScore | script/src/bin/doge_proof_worker.rs:153 | the reply of ZRANGEBYSCORE with LIMIT: distinct, expired, in order of score and then name, cut off only by the batch size |
| ExpirySweep.ReplyIsDetermined | script/src/bin/doge_proof_worker.rs:153 | and there is only one such reply |
| ExpirySweep.NamesBytewise | script/src/bin/doge_proof_worker.rs:153 | equal scores are ordered by name: at the first byte that differs the smaller first, a proper prefix before what it begins |
| QueueKeys.KeyDeterminesSlot | script/src/proof_protocol.rs:22-52 | the key of a list, counter, payload, state or result is the namespace with its suffix and the job, and determines which of them it is and for which job |
| QueueKeys.NetworksAreDisjoint | script/src/proof_protocol.rs:23-24 | with one prefix and seed, no key belongs to both networks |
| QueueKeys.NamespacesShareExactlyWhen | script/src/proof_protocol.rs:22-52 | two namespaces share a key if and only if they are equal or one continues the other as a per-job key would |
| QueueKeys.ConfigurationsCanCoincide | script/src/proof_protocol.rs:24 | prefix and seed are free text, so different configurations can name one namespace |
| LeaseQueueInvariant.StepKeeps | script/src/bin/doge_proof_worker.rs:48-193 | every step of any producer or worker keeps list, lease set, state, counter, result and notify list of every job in agreement, and never undoes what is final, fenced or spent |
| LeaseQueueInvariant.ClaimTakesHead | script/src/bin/doge_proof_worker.rs:59-76 | on an agreeing store CLAIM takes exactly the head of the queue, with the counter raised by one |
| LeaseQueueInvariant.SweepOneMoves | script/src/bin/doge_proof_worker.rs:157-190 | one pass of the sweep, unconditional ZREM included, keeps the swept job in agreement |
| JobLifecycle.ClaimSkipsStale | script/src/bin/doge_proof_worker.rs:59-76 | on any store, agreeing or not, CLAIM discards the entries without payload or not queued up to the first it can claim, counts that one, gives it the lease and returns it; without any it empties the queue and returns nil |
| JobLifecycle.AcceptedExactlyWhen | script/src/bin/doge_proof_worker.rs:80-147 | the four scripts under a lease reply 0 and change nothing unless the job is claimed by this worker under this lease and the lease lies past the floored clock; else they reply 1, and FINISH_ERROR 2 exactly for a retryable failure with attempts left |
| JobLifecycle.UnclaimedChanges | script/src/bin/doge_proof_worker.rs:59-76 | a job comes in queued at the end; from there its state changes only by the claim that takes it from the head of the queue, with the new lease, its expiry and the counter raised by one; a terminal state never changes |
| JobLifecycle.LiveClaimChanges | script/src/bin/doge_proof_worker.rs:79-148 | a live claim changes only by a call under its own worker and lease: a new expiry; or completed or failed with the Redis time, its attempt and the result or error that the call brings; or queued at the end, for a retryable failure with attempts left |
| JobLifecycle.ExpiredClaimChanges | script/src/bin/doge_proof_worker.rs:150-193 | an expired claim changes only by a sweep that was given it: queued again with attempts left, else failed with the time, the attempt, the one error text and the members that Lua finds in the payload |
| JobLifecycle.SweepInOrder | script/src/bin/doge_proof_worker.rs:157-187 | the jobs one sweep requeues go to the end of the queue in the order of their leases |
| LeaseQueueRuns.ReachableInOnePlace | script/src/bin/doge_proof_worker.rs:48-193 | in every reachable store a job with a JSON payload is in the one place its state names: once in the queue, in the lease set under its own expiry, or in neither |
| LeaseQueueRuns.OnePlaceExactlyForJson | script/src/bin/doge_proof_worker.rs:167-190 | that holds in all runs if and only if the payload is JSON; otherwise the sweep drops the lease and leaves the job claimed |
| LeaseQueueRuns.StrandedReachable | script/src/bin/doge_proof_worker.rs:166-190 | a store in which such a job is stranded is reachable |
| LeaseQueueRuns.StrandedForever | script/src/bin/doge_proof_worker.rs:79-193 | a stranded job never moves again, in any continuation |
| LeaseQueueRuns.FencingIsPermanent | script/src/bin/doge_proof_worker.rs:79-148 | a used lease once refused is refused in every continuation by all four scripts, and each refused call changes nothing |
| LeaseQueueRuns.LeaseEndsAtMostOnce | script/src/bin/doge_proof_worker.rs:95-193 | along any run, with any repetition and interleaving, a lease is finished at most once and ends at most once in all |
| LeaseQueueRuns.TerminalIsFinal | script/src/bin/doge_proof_worker.rs:104-108 | terminal states and stored results never change, and a job has one push to notify exactly when it is terminal |
| LeaseQueueRuns.NotifyOnlyGrows | script/src/bin/doge_proof_worker.rs:108 | the notify list is only ever pushed to |
| LeaseQueueRuns.FailedWithoutResult | script/src/bin/doge_proof_worker.rs:143-147 | a job fails without a stored result if and only if it was failed as a malformed claim |
| LeaseQueueRuns.MovesSpendRank | script/src/bin/doge_proof_worker.rs:68-187 | every step that moves a job lowers its rank, 2(M-c) when queued, 2(M-c)+1 when claimed, 0 when terminal |
| LeaseQueueRuns.WorkTerminates | script/src/bin/doge_proof_worker.rs:68-187 | a job is moved at most 2M times along any run, and never once it is terminal |
| LeaseQueueRuns.ClaimsAreCounted | script/src/bin/doge_proof_worker.rs:68 | the attempt counter counts the claims of a job, and never passes the limit |
| LeaseQueueRuns.AttemptRecordsAgree | script/src/bin/doge_proof_worker.rs:163-165 | counter and claimed attempt agree, so `math.max` never matters; a queued job has attempts left |
| LeaseQueueRuns.ClaimsFollowTheQueue | script/src/bin/doge_proof_worker.rs:59-76 | first in, first out across requeues: claimed jobs in order, followed by the final queue, begin with the initial queue |
| LeaseQueueRuns.PositionDecidesTurn | script/src/bin/doge_proof_worker.rs:59-76 | the job at index i is the (i+1)-th claimed; until then its index has dropped by the claims so far |
| LeaseQueueRuns.ClaimDiscardsNothing | script/src/bin/doge_proof_worker.rs:59-76 | the CLAIM loop discards no entry of a reachable queue, and returns nil only when it is empty |
| ExpirySweep.SweepConserves | script/src/bin/doge_proof_worker.rs:150-193 | one sweep gets min(batch, n) leases, removes those before the first entry at which it raises and no live one, reports them all except those it strands, and queue and notify grow by what it reports |
| ExpirySweep.SweepReportsAllExactlyWhen | script/src/bin/doge_proof_worker.rs:167-192 | requeued plus failed equals the leases given to the sweep if and only if no entry has its attempts used up and a payload that is no JSON or cannot be indexed |
| ExpirySweep.SweepsClearBacklog | script/src/bin/doge_proof_worker.rs:153 | at a fixed clock, k sweeps leave at least max(0, n - k * batch) expired leases, and exactly so many if none raises |
| ExpirySweep.EnoughSweepsClearAll | script/src/bin/doge_proof_worker.rs:35 | with batches of 64 the backlog is gone exactly when k * 64 reaches n and no expired job makes the sweep raise |
| ExpirySweep.RaisedSweepLeavesFrontJam | script/src/bin/doge_proof_worker.rs:167-171 | a sweep that raises leaves the job it raised at first of all leases |
| ExpirySweep.FrontJamForever | script/src/bin/doge_proof_worker.rs:150-193 | and then no sweep changes anything, in any continuation |
| ExpirySweep.RetryPathsAgree | script/src/bin/doge_proof_worker.rs:122-187 | the sweep requeues an expired lease exactly when a retryable failure reported in time would have been requeued |
| ExpirySweep.ExpiredResultKeepsIdentity | script/src/bin/doge_proof_worker.rs:166-181 | the result the Lua code assembles at the attempt limit is the one `result_with` would build for the stored job |
| WorkerFleet.ClaimsBehindJam | script/src/bin/doge_proof_worker.rs:1031-1056 | workers that claim only after an own sweep without an error make, once some job makes sweeps raise, at most as many claims in all as have just swept plus full batches of 64 in front of it |
| WorkerFleet.NoClaimsBehindFrontJam | script/src/bin/doge_proof_worker.rs:1032-1036 | with that job in front and nobody between sweep and claim, no worker ever claims again |
| Progress.MovableExactlyWhen | script/src/bin/doge_proof_worker.rs:1031-1091 | some continuation of the workers' doings moves a job if and only if it is queued and its turn comes, or held by a worker, or claimed under a lease that a sweep will get to and can resolve |
| Progress.QueuedEndsExactlyWhen | script/src/bin/doge_proof_worker.rs:1031-1091 | a queued job can be brought to its end if and only if no sweep raises or its index is below the number of claims still to be made |
| Progress.EndsUnlessJammed | script/src/bin/doge_proof_worker.rs:1031-1091 | while no sweep raises, so can every held job and every expired one that a sweep can resolve |
| Progress.StuckForever | script/src/bin/doge_proof_worker.rs:150-193 | a job that cannot be moved stays exactly as it is, in every continuation |
| Progress.JamIsReachable | script/src/bin/doge_proof_worker.rs:167-171 | for every attempt limit, workers that disappear after their claims lead to a store whose first lease makes every sweep raise |
| Progress.QueueCanStandStill | script/src/bin/doge_proof_worker.rs:1032-1036 | and there a job can be submitted that stays queued whatever the workers do |
| LeaseTime.RenewalGapExact | script/src/bin/doge_proof_worker.rs:79-93 | over all runs from reachable stores, renewals a given Redis time apart keep every lease if and only if the gap is at most one millisecond less than the lease |
| LeaseTime.LateRenewalLosesTheJob | script/src/bin/doge_proof_worker.rs:56-58 | for every lease there is a reachable store in which, before one lease has passed since the claim, a heartbeat is refused and a sweep takes the job |
| LeaseTime.RenewalKeepsTheLease | script/src/bin/doge_proof_worker.rs:79-93 | a holder that renews so often keeps its job through any interleaving of other claims, sweeps and finishing calls |
| LeaseTime.DeadlineIsLastHeard | script/src/bin/doge_proof_worker.rs:340-404 | along any run the local retry deadline is the local start of the last acknowledged heartbeat that was accepted, or else of the claim, plus the lease |
| LeaseTime.DeadlineExact | script/src/bin/doge_proof_worker.rs:340-404 | unless a later renewal was lost, the Redis expiry of a lease still held lies past that deadline by exactly the time the last acknowledged call took to get to Redis, less the microseconds by which TIME is floored |
| LeaseTime.DeadlineIsConservative | script/src/bin/doge_proof_worker.rs:386-404 | after acknowledged and lost heartbeats alike, the local retry deadline of a lease still held is less than one millisecond past its Redis expiry |
| LeaseTime.ClaimDeadlineClose | script/src/bin/doge_proof_worker.rs:340-360 | the deadline a claim sets starts out within that bound, and the expiry is the floored clock plus the lease |
| LeaseTime.DeadlineBoundIsTight | script/src/bin/doge_proof_worker.rs:58 | an excess of 999 microseconds occurs, after a claim and after an acknowledged heartbeat |
| HeartbeatSchedule.SurvivesExactlyWhen | script/src/bin/doge_proof_worker.rs:691-716 | following the two heartbeat intervals of `send_request` and `prove_claim`, the worker keeps every lease in every run until it reports if and only if the largest gap stays a millisecond below the lease: heartbeat, the longer of call and shorter of heartbeat and write timeout, call and twice the polling delay; and for a report after a broken pipe the wait for the daemon to exit as well |
| HeartbeatSchedule.GapReached | script/src/bin/doge_proof_worker.rs:966-979 | those sums are the largest gaps: a schedule reaches every gap up to them, waiting for a proof or reporting after a broken pipe |
| HeartbeatSchedule.ReportIsAccepted | script/src/bin/doge_proof_worker.rs:1059-1083 | below that bound the worker's own COMPLETE or FINISH_ERROR is accepted, with the longer bound after a broken pipe too |
| HeartbeatSchedule.SurvivesWithoutLatency | script/src/bin/doge_proof_worker.rs:245-248 | with no latency at all: until every proof is reported if and only if heartbeat plus the shorter of heartbeat and 30 seconds is less than the lease, until every report if and only if that holds with 5 seconds added |
| HeartbeatSchedule.ValidatedCanLose | script/src/bin/doge_proof_worker.rs:245-248 | settings that pass the argument check with which a slow write, without any latency, loses the lease to a sweep |
| HeartbeatSchedule.ValidatedLosesExactlyWhen | script/src/bin/doge_proof_worker.rs:242-260 | of the settings that the check accepts exactly those can lose a lease before a proof is reported, even without latency, whose lease is at most the heartbeat plus the shorter of heartbeat and write timeout |
| HeartbeatSchedule.ExitWaitCanLose | script/src/bin/doge_proof_worker.rs:723-732 | settings that keep every lease until a proof is reported and lose one while a daemon with a broken pipe is waited for |
| HeartbeatSchedule.DefaultsSurviveExactlyWhen | script/src/bin/doge_proof_worker.rs:28-40 | how much latency the default lease and heartbeat bear, for proofs and for every report |
| RetryLoop.UntilResolved | script/src/bin/doge_proof_worker.rs:862-945 | the retry loops return the answer to the last attempt, which then is the last step; a refusal means the lease is fenced; a finishing call has taken effect, once, exactly if the worker hears so or an attempt landed unheard; and for COMPLETE not heard of, the worker's own result is stored exactly if an attempt landed unheard |
| RetryLoop.StopsAtFirstEnd | script/src/bin/doge_proof_worker.rs:862-945 | the loop ends at the first attempt that is answered or fails at or past the deadline, with the reply of Redis where the turns before leave the world, and makes no later attempt |
| RetryLoop.LandsExactlyWhen | script/src/bin/doge_proof_worker.rs:887-945 | however many attempts are executed, interleaved with others' steps, a finishing call takes effect at most once, and exactly if it was heard or landed unheard, never both |
| RetryLoop.ToldIsTrue | script/src/bin/doge_proof_worker.rs:404-475 | success or a requeue is told exactly when Redis replied so; then the job is completed or failed with just what the call stores, the time and the attempt, and one push to notify, or it is in the queue once with attempts left; told it is stale, the call took effect exactly if it landed unheard |
| RetryLoop.OwnResultStoredExactlyWhen | script/src/bin/doge_proof_worker.rs:887-905 | the worker's own result is stored if and only if it heard so or an attempt landed unheard |
| RetryLoop.LostReplyLooksStale | script/src/bin/doge_proof_worker.rs:887-905 | which happens to every held lease with one lost reply |
| Session.StartsExactlyWhen | script/src/bin/doge_proof_worker.rs:558-573 | a daemon starts exactly with this protocol version, the worker's network and two bare lower-case digests, never with a `0x` key hash |
| Session.MatchingIdentityStarts | script/src/bin/doge_proof_worker.rs:818-834 | a job matches exactly one identity, by its network, guest, ELF digest and key hash, and for an accepted job a daemon with that identity starts |
| Session.ClassifyExact | script/src/bin/doge_proof_worker.rs:982-1002 | an answer is accepted exactly when it is a proof matching the job in every field with 356 and 32 bytes; a new daemon is asked for exactly on a timeout reported for this request; an error reported for it is the reason the job fails for |
| Session.ClassifyAnswer | script/src/bin/doge_proof_worker.rs:981-1002 | the daemon's own answers are classified by what the work came to: proof of the right sizes, retry and restart on timeout, final otherwise |
| Session.AnswerVerdict | script/src/bin/doge_proof_worker.rs:981-1002 | the very response that is kept, or the very reason of the failure, for everything the work can come to |
| Session.RunDaemon | script/src/bin/gen_proof.rs:633-695 | the request loop answers every non-blank line it takes, in order, and stops with 75 exactly when the work of the last one timed out, with 1 at the first line it cannot read or answer, else with 0 at the end |
| Session.AnswersInOrder | script/src/bin/gen_proof.rs:633-695 | each line that is neither blank nor unreadable gets one answer, in order: an error without request id if it is no request, else the answer to that request |
| Session.KeptExactlyWhenClean | script/src/bin/doge_proof_worker.rs:1071-1087 | however an attempt ends, a kept daemon leaves a clean pipe, and a daemon with a clean pipe is stopped exactly if the attempt failed in the write loop before a byte was written; kept before that loop, never in it or while waiting, and after a line unless the work timed out |
| Session.WriteFailureStops | script/src/bin/doge_proof_worker.rs:675-717 | an attempt that fails while its request is written stops the daemon, whose pipe was clean exactly if no part of the request had gone out |
| Session.TalkStepPairs | script/src/bin/doge_proof_worker.rs:947-1003 | every step of worker or daemon keeps requests and answers paired |
| Session.KeptDaemonIsClean | script/src/bin/doge_proof_worker.rs:1057-1089 | a daemon kept for the next job has answered all it was sent and has not left by its exit-75 path; the line read for a job answers that job's request |
| Session.LostPrefixMatters | script/src/bin/doge_proof_worker.rs:969-979 | when a heartbeat tick drops a half-read line: a tail read as text fails the job for good whatever the work came to, and keeps a daemon that is unclean exactly if it timed out; a tail that is not UTF-8 restarts and retries |
| Session.TimeoutAnswerCanBeCut | script/src/bin/doge_proof_worker.rs:969-979 | every daemon that starts can come to a timeout answer which, so cut, turns a retry into a final failure and keeps an exited daemon |
| EndToEnd.SystemStepOk | script/src/bin/doge_proof_worker.rs:1005-1091 | every step of the whole system keeps: each worker's claim is the stored payload, each completed job is genuine |
| EndToEnd.OnlyCompleteCompletes | script/src/bin/doge_proof_worker.rs:95-110 | the only step that completes a job is a COMPLETE under its claim, and it stores the result it brought, the Redis time and the attempt |
| EndToEnd.CompletedMeansProved | script/src/bin/doge_proof_worker.rs:1057-1065 | in every reachable state a completed job's payload hashes to its key and fingerprint, its result is that job's with a matching response of the right sizes, and the proof is one a daemon produced for exactly this request |
| EndToEnd.FailedMeans | script/src/bin/doge_proof_worker.rs:1071-1082 | in every reachable state with one attempt limit, a job failed with attempts left was malformed and has no result, or its result reports a permanent reason for which an attempt at it failed, and no reason that an honest daemon cannot give |
| EndToEnd.GiveUpDecides | script/src/bin/doge_proof_worker.rs:423-456 | in every reachable state a failure reported under a live claim fails the job with its error and result if and only if the reason is permanent or it was the last attempt, else queues it at the end; reported under any other claim it changes nothing |
| EndToEnd.FailureSettles | script/src/bin/doge_proof_worker.rs:1071-1082 | the end of an attempt and its report together: a rejected job, bad input, a failed proof or one of the wrong size fails the job at once with the daemon's words, a broken attempt or a timeout queues it unless it was the last |
| EndToEnd.ProofSettles | script/src/bin/doge_proof_worker.rs:1059-1070 | a proof of the right sizes under a live claim completes the job with that proof byte for byte, the job's identity, the time and the attempt |
| EndToEnd.ClaimGives | script/src/bin/doge_proof_worker.rs:340-384 | a claim gives the worker the head of the queue under the new lease, as the job in its payload or, if that is no job or another one's, as malformed |
| EndToEnd.MalformedDecides | script/src/bin/doge_proof_worker.rs:458-475 | only a payload that is no job, or another one's, is reported as malformed; under a live claim that fails the job without a result |
| EndToEnd.HonestRunCompletes | script/src/bin/doge_proof_worker.rs:1005-1091 | every acceptable job, with every daemon whose identity matches it and every proof of the right sizes, is completed with that very proof by some run that starts from nothing |
| JobIdentity.ComputeJobId | script/src/proof_protocol.rs:140-162 | the id is the hex of the hash of the job's own fields in this order: version, network, height, checkpoint, fingerprint, guest, ELF digest, key hash, request, lengths first where they vary; or the panic, exactly for a length of 2^32 or more |
| JobIdentity.JobIdExact | script/src/proof_protocol.rs:140-162 | the same of the preimage itself |
| JobIdentity.ParseUndoesEncode | script/src/proof_protocol.rs:151-161 | a parser reads the hashed preimage back, field by field |
| JobIdentity.EncodeUndoesParse | script/src/proof_protocol.rs:151-161 | and whatever parses is the encoding of what it parses to |
| JobIdentity.ValidateJobExact | script/src/bin/doge_proof_worker.rs:774-812 | a job is accepted exactly when schema and network are right, four fields are hex digests, fingerprint and id are the hashes of its own request and fields, and it has a request id |
| JobIdentity.FirstFaultDecides | script/src/bin/doge_proof_worker.rs:774-812 | a rejection names the first fault in the order of the checks, and the panic comes exactly where the id has none |
| JobIdentity.JobIdCommits | script/src/proof_protocol.rs:140-162 | two accepted jobs with one id agree in every identity field and in the request JSON, or their preimages are an explicit SHA-256 collision |
| Bytes.DecodeHex32Bijection | script/src/proof_protocol.rs:186-197 | every 32-byte value is decoded from exactly one accepted string, its lower-case hex, spelled digit by digit |
| Bytes.HexDecodeExactly | script/src/bin/doge_proof_worker.rs:846-849 | hex of either case decodes to bytes exactly when it spells them, high digit first |
| Bytes.DecodeHex32Accepts | script/src/proof_protocol.rs:186-197 | exactly the strings of 64 lower-case hex digits are accepted |
| Bytes.PrefixedHexIsRefused | script/src/bin/doge_proof_worker.rs:571 | a key hash written with `0x` is refused |
| BoundedStderr.Ring.Append | script/src/bin/doge_proof_worker.rs:526-534 | after any append the ring holds exactly the last bytes of everything appended, up to the cap, also for chunks larger than the cap |
| BoundedStderr.Ring.BytesSince | script/src/bin/doge_proof_worker.rs:540-547 | reading from an offset gives the log from there, clamped to what is retained |
| BoundedStderr.SavedOffsetReadsTheTail | script/src/bin/doge_proof_worker.rs:536-547 | a saved offset reads all of what came after it if and only if that is at most 262144 bytes, else its last so many |
| LineReader.Stream.ReadLine | script/src/bin/doge_proof_worker.rs:749-772 | the outcome depends on the bytes and the limit only, not on how they are cut into buffers; a line, valid UTF-8 or not, consumes exactly through its newline; one that is too long keeps its newline |
| LineReader.CancelledReadStaysAligned | script/src/bin/doge_proof_worker.rs:969-979 | after any dropped read the next one ends at the same newline; it returns the whole of a good line exactly when nothing had been consumed, else a tail or no UTF-8, and lets pass an over-long line whose rest fits |
| PublicInputs.BlockTransitionPublicInputs | lib/src/lib.rs:16-32 | the two hashers compute the documented formula |
| PublicInputs.BlockTransitionCommits | lib/src/lib.rs:16-32 | equal outputs mean equal arguments, or a collision at one of the two named nodes |
| PublicInputs.CustodianTransitionPublicInputs | lib/src/lib.rs:80-94 | the hashers compute the custodian formula: the hashes of the two outputs in a pair, the two configurations in a pair, and the pair of those |
| PublicInputs.CustodianTransitionCommits | lib/src/lib.rs:80-94 | the same for the custodian formula and its five nodes |
| PublicInputs.ManualClaimPublicInputs | lib/src/lib.rs:46-74 | the hashers compute the documented formula: roots in pairs, then transaction, account, index and amount little-endian, then the custodian |
| PublicInputs.ManualClaimCommits | lib/src/lib.rs:46-74 | equal outputs mean equal claims, or a collision at one of the five named nodes |
| PublicInputs.Cursor.TakeArray | program/src/bin/manual_claim.rs:37-42 | each call returns the next n bytes and moves the offset past them |
| PublicInputs.Guest | program/src/bin/manual_claim.rs:6-34 | an input of any other length than 240 is refused; otherwise the committed value is the formula over these ranges of its bytes, and that of the claim laid out in it |
| PublicInputs.LayoutOfRead | program/src/bin/manual_claim.rs:10-20 | laying out what the cursor read gives the input back |
| PublicInputs.ReadOfLayout | program/src/bin/manual_claim.rs:10-20 | and every claim is read back from its layout |
| PublicInputs.GuestCommits | program/src/bin/manual_claim.rs:6-34 | two accepted inputs with one committed value are the same 240 bytes, or these ranges of their bytes collide |

## Left out

- SP1 setup, execution, proving and verification, CUDA and ELF embedding: `generate_proof` is a nondeterministic outcome.
- The block-transition and custodian-transition guests: the transition logic is in crates that are not part of this model, and
  the custodian guest's parser is the manual-claim one with fewer fields.
- The inner workings of SHA-256 and of the serde and cjson formats; a stored document is what its decoders make of it.
- UTF-8 validation: the line reader takes it as a parameter.
- Message texts: failures carry a reason instead, and the `error` of a result is any string.
- `prove_claim` and `run` are steps of a state machine, not loops: the worker and its daemon interleave, which one method
  cannot show.
- Members of a payload that are neither string nor integer, and documents nested too deep for cjson to encode again.
- `EndToEnd.SystemStepOk` and the other results on `EndToEnd` do not tie a worker's claims to its own sweeps; any order is
  covered. `WorkerFleet` does, with all workers on one attempt limit.
- `EndToEnd.FailureSettles` and `EndToEnd.ProofSettles`: the report follows the end of the attempt at once; `GiveUpDecides`
  and `PublishDecides` say what it does at any later time.
- `Progress.EndsUnlessJammed`: says nothing of a claim that nobody holds and that has yet to run out; `MovableExactlyWhen`
  says when it can be moved.
- `Session.KeptDaemonIsClean`: response lines arrive whole, as in the runs without a dropped read; `Session.LostPrefixMatters`
  says what a dropped read changes. That the tail of a response line is not JSON is not proved: the lines are flat objects.
- `HeartbeatSchedule.SurvivesExactlyWhen`: local computation takes no time, and tokio's intervals are taken by their documented
  `Delay` behaviour; a tick it counts as on time only comes earlier, which the schedule allows.
- `BoundedStderr.Ring.Append`: requires fewer than 2^64 bytes in all, so the saturation of the offsets never shows.
- `LeaseTime.DeadlineIsConservative`, and all of `HeartbeatSchedule`: the worker's clock and the Redis clock are read on one
  axis, without drift.
- Redis connection management, backoff, process spawning and killing, stdout duplication, command lines, `@file` reading, logs.
- The consumer of results and the notify list, deletion and expiry of keys, strength of hashes and random numbers.
