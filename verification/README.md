# Sentinel OS: a verified model

This project models the parts of `sentinel_os` whose guarantees are stated over whole runs, whole
chains or all inputs, and proves what those guarantees come to. Each module follows one source file,
or one protocol that spans several. Objects that the source updates in place are classes whose methods
are proved against functions of their old contents; loops are loops with invariants; values are
datatypes. The lemmas are then about those functions, over every run.

| module | models |
|---|---|
| `Json`, `Wrappers`, `Hashing`, `Texts`, `Sequences` | JSON values, options, digests, Python's string order and blankness, sequences |
| `Encoder` | one encoder that loses nothing, so that what is assumed of the encoders can be had |
| `Canonical`, `Custody` | the canonical form of a ledger row, the witness's walk, the signed head anchor, the offline receipt tool |
| `Attestation` | a counterparty's partition chain and its anchor receipts |
| `Custodian` | the key custodian's log and decrypt flow, across failed writes and restarts |
| `Declaration`, `Outcome` | maturation rules printed and parsed, and the obligations owed by a decision feed |
| `Queue`, `QueueRuns`, `QueueLaws`, `QueueStore` | the Redis queue: each Lua script as one atomic step, every run of them, and the object |
| `Harness`, `Worker`, `Rows` | governing one episode, and any number of workers, crashes and redeliveries over one queue and one ledger |
| `Breaker`, `Limiter`, `LoopGuard` | the circuit breaker, the sliding-window limiter, the per-trace loop guard |
| `Events` | assembling an episode from stamped events |
| `Detector` | the divergence detector |
| `Deck`, `Disclosure` | the cross-lens tier fold, and the regulatory deck on its ledger |
| `Equity` | the four-fifths screens, in exact arithmetic |
| `Egress` | the approval fold and the egress decision |

## Assumptions

- SHA-256 is an unknown function to 64 lower-case hexadecimal characters (FIPS 180-4, section 6.2). It
  is never assumed injective: where two inputs have to be told apart, a theorem says "equal, or these
  two rows of these two lists hash different texts to one digest".
- The ledger's and the custodian's JSON encoders are assumed injective on what they are given: JSON
  values whose floats are 64-bit doubles, with one NaN. `Custody.WitnessExists` and `Custodian.KeysExist` exhibit
  encoders, digests and signatures that meet every assumption made of them. HMAC, Ed25519, envelope
  opening and the ISO timestamp parser are unknown functions; of signing it is assumed only that a
  signature just made verifies, and the theorems about whole runs of the custodian assume nothing else.
- One Lua script, one ledger append, one critical section under a lock and one custodian file write are
  atomic. The Redis clock does not run backwards. Claim ids are not issued twice.
- Where the deck's ledger raises, it has written nothing. The governance ledger may also commit and then
  raise.

## Where the code and its documentation differ

The model follows the code. Each difference below is a theorem, with the exact condition under which the
documented promise does hold.

- `MaturationRule` is documented to come back as the same text; the text is canonicalised instead
  (`Declaration.TextSurvivesExactly`, `Declaration.ThirtyDaysBecomeOneMonth`).
- The queue is documented to keep every job's status equal to the one structure that holds it.
  `claim.lua` promotes retries without marking them, so a retry it promotes but does not take is pending
  with status scheduled (`QueueLaws.PromotedByAClaim`, `QueueLaws.ClaimBreaksTheAudit`).
- `verify_invariants` is documented never to report a record in mid-expiry. It prunes the done set one
  second before the record itself goes, and reports the record in that second
  (`QueueLaws.RetentionBreaksTheAudit`); `QueueLaws.AuditIsExact` says when its answer is right. Ids with
  a colon are always reported (`QueueLaws.ColonIsReported`).
- At most one row per episode holds exactly when no worker, between its pre-check and its own commit, is
  overtaken by another that commits a row for the same episode (`Rows.RowsAreUniqueExactly`). It holds
  whenever no two workers are past the pre-check on one episode at once (`Rows.OneRowPerEpisode`); a
  lapsed lease can break it (`Rows.OverlapWritesTwice`).
- A decider whose answer is truthy without being the boolean true is recorded as an approval while the
  action is withheld (`Harness.RowAgreesWithAction`).
- The custodian's records are numbered 1..n unless a record is written after a failed write and before a
  restart (`Custodian.NumberedExactly`).
- Two probes are outstanding exactly when, while one was out, another call reported to the half-open
  breaker (or it was reset) and a second was let in after that (`Breaker.TwoProbesExactly`); a second one
  can still come exactly when another call is outstanding (`Breaker.SecondProbeExactly`,
  `Breaker.LateSuccessAdmitsSecondProbe`).
- A half-open breaker whose probe slot is taken stays shut for good, short of a reset, exactly when no call
  is outstanding (`Breaker.LostProbeWedges`). Every breaker can be brought there, and only by a probe that
  is torn down without reporting (`Breaker.EveryBreakerCanWedge`, `Breaker.OnlyAbandonedProbesWedge`).
- `handle_one` is documented never to let an exception escape without failing the job first. A payload
  that is not a dict raises before the `try`: nothing is settled and the worker's loop ends
  (`Harness.SentinelWorker.HandleOne`).
- Inserting and removing a lens is documented to be on the record. A restart is not: a deck that takes up
  a ledger with lenses still in starts without them, and what it has in force is what the whole record
  says is inserted exactly when each of their identities has been inserted again or taken out since
  (`Disclosure.WholeRecordExactly`); inserting the same lenses again at every start is enough
  (`Disclosure.RestartAgrees`).
- Assembly is documented not to depend on arrival. The assembled episode does not exactly when any two
  events with one key leave the same moment and the last writers of each field hold one value
  (`Events.ResultForgetsArrivalExactly`); unique keys are enough, and are what fixes the order of folding
  (`Events.AssemblyForgetsArrival`, `Events.ArrivalOrderIsForgotten`).
- The detector calls an honest copy extra wherever an explicit window does not cover it
  (`Detector.HonestCopy`).
- A revocation is final exactly when a time of revocation was given (`Egress.RevocationExactly`). The
  ledger's own writer refuses a revocation without one (`Egress.RecordedRevocationsAreDated`); a row from
  another writer without one is taken back by the next grant row (`Egress.TimelessRevocationIsUndone`).

## Model

| member | source | states |
|---|---|---|
| Canonical.ApplyOptionalHashedFields | sentinel_os/canonical_fields.py:269-285 | the loop adds exactly the optional fields whose values in the row are truthy, and touches nothing else |
| Canonical.SealedCommits | sentinel_os/twin_custody.py:337-533 | two sealed forms are equal only if their bodies, their optional fields, their previous hashes and their kinds are |
| Canonical.OptionalReadBack | sentinel_os/canonical_fields.py:53-131 | every optional field can be read back from the sealed form, so none can change unnoticed |
| Canonical.DecisionFormCommits | sentinel_os/twin_custody.py:345-365 | two decision rows with one canonical form have the same input, policy, outcome, change of parameter, optional fields and previous hash |
| Canonical.DecisionFormCarriesObligation | sentinel_os/canonical_fields.py:53-63 | the form of a decision row determines the maturation declaration it carries |
| Custody.VerifyRows | sentinel_os/twin_custody.py:602-638 | Clean exactly for an accepted chain; otherwise the verdict names the first row that does not hold and why |
| Custody.AcceptedMeans | sentinel_os/twin_custody.py:602-638 | acceptance is: every row links to its predecessor, every row verifies by itself, and no unsigned claim follows a policy marker |
| Custody.WitnessExists | sentinel_os/twin_custody.py:330-334 | there is a witness whose digest and encoder meet what is assumed of them: the encoder reads back every JSON value |
| Custody.HeadFixesChain | sentinel_os/twin_custody.py:337-538 | two accepted chains with one head have one length and one canonical form at every position, or two of their rows collide |
| Custody.BuiltAnchorVerifies | sentinel_os/twin_custody.py:680-757 | an anchor built with a held key verifies, as trusted or as retired according to how the key is held |
| Custody.GrowthKeepsAnchor | sentinel_os/twin_custody.py:760-785 | rows appended after sealing are never reported, whatever they are |
| Custody.AnchoredPrefix | sentinel_os/twin_custody.py:760-785 | a chain that passes the walk and the anchor has the sealed chain as its prefix, form by form, or two rows collide |
| Custody.EmptyAnchorVouchesForNothing | sentinel_os/twin_custody.py:760-785 | an anchor passes every chain exactly when it was sealed over no rows |
| Custody.VerifiedMeans | tools/verify_receipts.py:84-98 | VERIFIED exactly for an accepted chain under a verifying anchor whose head is the hash at the sealed position; TRUNCATED only for an accepted chain |
| Attestation.PartitionChain | sentinel_os/contract_attestation.py:132-156 | step n of the loop's list is the head of the first n + 1 rows |
| Attestation.StepDecodesUniquely | sentinel_os/contract_attestation.py:132-156 | the text hashed at a step, running value then row hash with no separator, can be cut in one way only |
| Attestation.HeadFixesPartition | sentinel_os/contract_attestation.py:159-166 | one partition head, one list of row hashes, or two steps collide |
| Attestation.ContinuousMeansPrefix | sentinel_os/contract_attestation.py:209-277 | an authentic receipt calls a later list continuous exactly when the list still begins with the receipted rows, for any growth, or two steps collide; shorter lists are the ones with rows removed |
| Attestation.ReceiptsAccumulate | sentinel_os/contract_attestation.py:236-277 | without a collision, continuity with a newer receipt is continuity with every older one |
| Custodian.VerifyAuditLog | sentinel_os/twin_custodian.py:191-204 | intact exactly when every record links, hashes and is signed; otherwise the first record that does not is named |
| Custodian.KeysExist | sentinel_os/twin_custodian.py:90-104 | there are keys whose digest, encoder and signature meet what is assumed of them |
| Custodian.LastHashFixesLog | sentinel_os/twin_custodian.py:191-204 | verified logs with one last hash hold the same records, or two collide |
| Custodian.EveryLogVerifies | sentinel_os/twin_custodian.py:90-104 | over any interleaving of requests, failed writes and restarts the log verifies, with positive and strictly rising sequence numbers |
| Custodian.NumberedExactly | sentinel_os/twin_custodian.py:50-104 | the records are numbered 1..n exactly when none was written between a failed write and the next restart |
| Custodian.FailedWriteLeavesGap | sentinel_os/twin_custodian.py:90-104 | one failed write and one refusal number the first record 2 |
| Custodian.EachGrantHasItsNonce | sentinel_os/twin_custodian.py:106-175 | every plaintext returned answers to a granted record of its own, and no nonce is granted twice |
| Custodian.GrantsAreAnswered | sentinel_os/twin_custodian.py:138-175 | without a restart every granted record's plaintext is returned or about to be |
| Custodian.CustodianState.Log | sentinel_os/twin_custodian.py:90-104 | the counter advances before the write; the record and the last hash change only if it succeeds |
| Custodian.CustodianState.ConsumeNonce | sentinel_os/twin_custodian.py:106-112 | a nonce is accepted exactly once |
| Custodian.CustodianState.Decrypt | sentinel_os/twin_custodian.py:138-175 | plaintext leaves only after a granted record that names the request is in the log |
| Declaration.ParseIsTheGrammar | sentinel_os/outcome_v1.py:180-199 | the parser accepts exactly margin, legal kind, at sign, positive count, unit, margin, and reads it one way |
| Declaration.DeclareParses | sentinel_os/outcome_v1.py:171-199 | parsing the declaration of any legal rule gives the rule back |
| Declaration.RedeclareIsIdempotent | sentinel_os/outcome_v1.py:171-199 | re-declaring a parsed text keeps its rule, and doing it twice changes nothing more |
| Declaration.SameRuleSameDeclaration | sentinel_os/outcome_v1.py:171-199 | two texts denote one rule exactly when they re-declare to one string |
| Declaration.TextSurvivesExactly | sentinel_os/outcome_v1.py:131-199 | a text comes back unchanged exactly when it has no margin, no leading zero and the largest unit that divides it |
| Declaration.ThirtyDaysBecomeOneMonth | sentinel_os/outcome_v1.py:131-139 | thirty days come back as one month |
| Declaration.PrintedUnitIsLargest | sentinel_os/outcome_v1.py:171-178 | the printed unit divides the horizon and no larger unit does |
| Outcome.DeriveOpenObligations | sentinel_os/outcome_v1.py:458-494 | the loop derives the obligations of the decision rows that declare one, in order, or the first failure |
| Outcome.DerivedOwesDebts | sentinel_os/outcome_v1.py:458-494 | what is derived owes, id by id, the decision hash, kind and horizon its row declares |
| Outcome.OpenedMaturesLater | sentinel_os/outcome_v1.py:241-259 | an opened obligation matures after it opens and has a legal kind |
| Outcome.HeadFixesDebts | sentinel_os/outcome_v1.py:458-494 | two accepted chains with one head owe the same obligations, or two rows collide |
| Outcome.NoDebtDisappears | sentinel_os/outcome_v1.py:458-494 | behind an unchanged head no obligation is dropped, added, shortened or given another kind, and the count is the same |
| QueueRuns.EveryRunIsWellFormed | sentinel_os/queue_schema.py:44-50 | every run keeps: one place per live job, status as place but for a claim's promotion, no orphan, attempts within budget, a newest error that explains each death, and enqueued = completed + held |
| QueueRuns.StepKeeps | sentinel_os/queue_schema.py:339-629 | every script, and expiry, keeps that invariant from any state that has it |
| QueueLaws.EveryJobHasOnePlace | sentinel_os/queue_schema.py:44-50 | in every run a live job is in exactly one of pending, scheduled, processing, dead; a finished one in none; nothing else is in done but what is past its retention |
| QueueLaws.NonMatchingFenceChangesNothing | sentinel_os/lua/_common.lua:18-26 | an ack, failure or heartbeat under a fence that does not match changes nothing but a counter and answers gone or stale |
| QueueLaws.DuplicateEnqueueChangesNothing | sentinel_os/lua/enqueue.lua:8-21 | a duplicate enqueue changes nothing but a counter and reports the job's status |
| QueueLaws.LostFenceStaysLost | sentinel_os/queue_schema.py:475-601 | once a claim no longer matches, it never matches again in any continuation that does not reissue its id |
| QueueLaws.ClaimTakesOldest | sentinel_os/lua/claim.lua:4-35 | a claim takes the oldest reference, of a job no one was processing, and makes the claimant its only holder; it takes nothing only if nothing is pending or due; it never finds an orphan |
| QueueLaws.NoOneJumpsTheLine | sentinel_os/lua/claim.lua:9-14 | no step puts a reference ahead of one already waiting, and only a claim takes one out, from the end |
| QueueLaws.OnlyAnAckFinishes | sentinel_os/queue_schema.py:52-62 | no step but an ack under the matching fence finishes a job or removes its record |
| QueueLaws.ReapRecovers | sentinel_os/lua/reap.lua:5-41 | each expired job is reported once and is pending again, or dead when its attempts are spent, never an orphan; other jobs are untouched |
| QueueLaws.NoExpiredLeaseIsLeft | sentinel_os/lua/reap.lua:5-41 | a batch that was not filled leaves no expired lease |
| QueueLaws.AuditIsExact | sentinel_os/queue_schema.py:813-862 | for ids without a colon the audit is clean exactly when no retry promoted by a claim is waiting and no done record is within a second of expiry |
| QueueLaws.ColonIsReported | sentinel_os/queue_schema.py:835-862 | a live job with a colon in its id is always reported |
| QueueLaws.PromotedByAClaim | sentinel_os/lua/claim.lua:7-12 | every retry a claim promotes and does not take is pending with status scheduled |
| QueueLaws.ClaimBreaksTheAudit | sentinel_os/lua/claim.lua:7-12 | a six-step run after which a sound queue is reported |
| QueueLaws.RetentionBreaksTheAudit | sentinel_os/queue_schema.py:820-823 | a run after which a retained finished job is reported |
| QueueLaws.BackoffGrowsToItsCap | sentinel_os/lua/fail.lua:34-35 | backoff starts at the base, never shrinks with attempts, and never passes the cap by more than the jitter |
| QueueStore.TransmissionQueue.Enqueue | sentinel_os/lua/enqueue.lua:8-21 | the fields after the call are the specified next state, with the answer the script gives |
| QueueStore.TransmissionQueue.Claim | sentinel_os/lua/claim.lua:4-35 | both loops, promotion and the bounded scan, leave the specified next state |
| QueueStore.TransmissionQueue.Ack | sentinel_os/lua/ack.lua:13-43 | the specified next state for a retained record, a deleted one and each refused fence |
| QueueStore.TransmissionQueue.Fail | sentinel_os/lua/fail.lua:6-39 | the specified next state for a retry, a death and each refused fence |
| QueueStore.TransmissionQueue.Heartbeat | sentinel_os/lua/heartbeat.lua:8-22 | the job's deadline and its score move together, or nothing but a counter does |
| QueueStore.TransmissionQueue.PromoteDue | sentinel_os/lua/promote_due.lua:9-18 | every due retry is moved and marked |
| QueueStore.TransmissionQueue.ReapExpired | sentinel_os/lua/reap.lua:5-41 | the specified next state and report for the whole batch |
| QueueStore.TransmissionQueue.RequeueFromDlq | sentinel_os/lua/requeue_dead.lua:2-14 | only a dead job goes back, with a fresh budget |
| QueueStore.TransmissionQueue.VerifyInvariants | sentinel_os/queue_schema.py:813-862 | prunes the done set and answers ok exactly when there is nothing to report |
| Harness.GovernanceHarness.Process | sentinel_os/governance_harness.py:184-331 | the result and the ledger after one unit of work, for every answer of the lenses, the decider and the ledger |
| Harness.AppendsExactly | sentinel_os/governance_harness.py:218-331 | a row is appended exactly when a governed decision of a bound harness commits; below the trigger, or lens-blocked, nothing is |
| Harness.RowAgreesWithAction | sentinel_os/governance_harness.py:296-364 | the row's approval is the action's, unless the answer is truthy without being the boolean true |
| Harness.YesIsRecordedButNotActedOn | sentinel_os/governance_harness.py:296-364 | the answer "yes" is recorded as approved and the action is blocked |
| Harness.GovernanceHarnessJobAdapter.ProcessCall | sentinel_os/sentinel_worker.py:362-418 | the result and the ledger for every payload, look-up and attempt: a parse error and a found row write nothing, and whatever process raises reads as a failed write |
| Harness.BeatsKeepTheClaim | sentinel_os/sentinel_worker.py:500-522 | heartbeats keep a claim that still matches, with a full lease from the last one |
| Harness.SentinelWorker.HandleOne | sentinel_os/sentinel_worker.py:536-630 | the ledger is what process_call leaves, the queue what the beats on the current job and then the settlement of its result leave, the counters follow, and no job is current afterwards; a payload that is not a dict changes nothing and settles nothing |
| Harness.SentinelWorker.Settle | sentinel_os/sentinel_worker.py:568-630 | each result settles the job as specified; exactly duplicates and completed judgements are acked |
| Worker.FinishedMeansRecorded | sentinel_os/sentinel_worker.py:362-418 | in every run of a bound harness, the moment a job is finished, its record kept or deleted, its episode has a row, or is below the trigger, or an attempt returned a lens block |
| Worker.FinishedIsVouched | sentinel_os/sentinel_worker.py:568-630 | only settling under the matching fence finishes a job, and what it settles is vouched for |
| Worker.DoneMeansRecorded | sentinel_os/sentinel_worker.py:362-418 | a job whose record is kept as done has that behind it in every later state |
| Worker.RunsAreHonest | sentinel_os/sentinel_worker.py:536-630 | every state of every run: whatever answer would ack is vouched for, each holder holds the queue's own payload, every done job is vouched for |
| Worker.StepHonest | sentinel_os/sentinel_worker.py:485-630 | every step of any worker, the reaper, the clock or an operator, and every crash, keeps that |
| Rows.FailedAppendNeverAcks | sentinel_os/sentinel_worker.py:588-607 | settling an attempt whose append failed finishes no job |
| Rows.RowsAreUniqueExactly | sentinel_os/governance/ledger_postgres.py:3620-3648 | every episode has at most one row exactly when there are no three steps at which a worker passes its pre-check, another commits a row for the same episode, and the first, past its check all the while, commits its own |
| Rows.OneRowPerEpisode | sentinel_os/sentinel_worker.py:362-418 | with no two workers past the pre-check on one episode at once, there is at most one row, wherever workers crash |
| Rows.OneRowWhileLeasesHold | sentinel_os/sentinel_worker.py:362-418 | so there is when no lease lapses between pre-check and append and no two jobs carry one episode |
| Rows.RedeliveryIsAbsorbed | sentinel_os/sentinel_worker.py:374-381 | a redelivered job whose row is there is answered as a duplicate, acked, and writes nothing |
| Rows.OverlapWritesTwice | sentinel_os/governance/ledger_postgres.py:3633-3636 | a run in which a worker that outlived its lease and its successor both record one episode |
| Breaker.CircuitBreaker.StateLocked | sentinel_os/circuit_breaker.py:141-158 | an open breaker half-opens exactly once its timeout has elapsed |
| Breaker.CircuitBreaker.Call | sentinel_os/circuit_breaker.py:184-234 | admission and the probe flag as specified, with the counters |
| Breaker.Reachable | sentinel_os/circuit_breaker.py:141-294 | over every interleaving, mode, opening time, failure count and probe flag agree |
| Breaker.OpeningIsRemembered | sentinel_os/circuit_breaker.py:256-294 | the opening time is that of the last failure that opened or kept it open since it was closed; a half-open breaker has outlived its timeout |
| Breaker.NothingIsAdmittedEarly | sentinel_os/circuit_breaker.py:184-234 | with a clock that does not run backwards, an admission means it was closed or the timeout since that failure is over |
| Breaker.OneProbeAtATime | sentinel_os/circuit_breaker.py:205-234 | if no call was outstanding whenever it half-opened, at most one call, the probe, runs while half-open |
| Breaker.OneCallExactly | sentinel_os/circuit_breaker.py:205-234 | from a half-open breaker with a free slot, at most one call runs in every continuation that stays half-open exactly when none is outstanding, for any clock and for one that runs forward from any time |
| Breaker.TwoProbesExactly | sentinel_os/circuit_breaker.py:205-276 | two probes are outstanding exactly when one was let in, then another call reported to the half-open breaker or it was reset, then the second was let in, and neither has ended |
| Breaker.SecondProbeExactly | sentinel_os/circuit_breaker.py:205-276 | while a probe is out, some continuation without a reset puts a second beside it exactly when another call is outstanding, for any clock and for one that runs forward from any time |
| Breaker.LateSuccessAdmitsSecondProbe | sentinel_os/circuit_breaker.py:237-254 | a run with one probe out in which the late success of an older call lets a second one join it |
| Breaker.TripsExactly | sentinel_os/circuit_breaker.py:256-294 | over any calls, reports and readings, a closed breaker stays closed exactly as long as the threshold of failures in a row has not been reported, and the completing report opens it |
| Breaker.RecoversExactly | sentinel_os/circuit_breaker.py:237-276 | over any calls, reports and readings, a breaker that became half-open stays so exactly as long as all reports are successes and too few; the last success needed closes it, a failure reopens it and restarts the timeout |
| Breaker.LostProbeWedges | sentinel_os/circuit_breaker.py:205-234 | a half-open breaker with its slot taken never admits a call again short of a reset exactly when no call is outstanding, for any clock and for one that runs forward from any time |
| Breaker.EveryBreakerCanWedge | sentinel_os/circuit_breaker.py:219-234 | for every configuration and time there is a run from then on, ending in a probe torn down without a report, after which that is so |
| Breaker.OnlyAbandonedProbesWedge | sentinel_os/circuit_breaker.py:219-234 | in a run where every call that ends reports, a taken slot is that of a probe still out and the breaker is not wedged |
| Limiter.RateLimiter.Check | sentinel_os/api_key_auth.py:121-136 | the loop pops exactly the stale hits and the answer and the queue are as specified |
| Limiter.AdmitsExactly | sentinel_os/api_key_auth.py:121-136 | with a monotonic clock a call is admitted exactly when fewer than the limit were admitted in the closed window ending now |
| Limiter.NoWindowOverflows | sentinel_os/api_key_auth.py:121-136 | no window of that length, wherever placed, holds more than the limit |
| Limiter.RetryAfterIsHonoured | sentinel_os/api_key_auth.py:129-134 | an identity refused and then silent for the advertised time is admitted, whatever others do |
| Limiter.NoLimitNoAnswer | sentinel_os/api_key_auth.py:121-136 | with a limit below one nobody is admitted, and an identity without hits fails instead of being refused |
| LoopGuard.PipelineStateEngine.ProcessLifecycle | sentinel_os/governance_loop_guard.py:104-138 | the verdict and every field after the call as specified |
| LoopGuard.PipelineStateEngine.TraceWindow | sentinel_os/governance_loop_guard.py:92-102 | the trace moves to the end, or is added and the least recently used one dropped, and its window is returned |
| LoopGuard.EngineFollowsHistory | sentinel_os/governance_loop_guard.py:92-138 | after every run the ordered dictionary and its deques are the recent traces and recent accepted texts of the plain history |
| LoopGuard.BlocksExactly | sentinel_os/governance_loop_guard.py:127-138 | BLOCKED_LOOP exactly when the text is among the last accepted texts of its trace since the trace was last evicted |
| LoopGuard.BoundsHold | sentinel_os/governance_loop_guard.py:92-113 | traces stay within their limit in order of last use, windows within theirs, and no window repeats a text |
| LoopGuard.RetriesAreBounded | sentinel_os/governance_loop_guard.py:115-138 | the shared retry counter never passes its limit |
| LoopGuard.BlockedAsIfAlone | sentinel_os/governance_loop_guard.py:92-138 | with no more traces than the limit, a trace is blocked exactly as by an engine serving it alone |
| Events.AssembleEpisode | sentinel_os/event_v1.py:304-388 | validates in key order, refuses as specified, and folds into exactly the specified record |
| Events.ArrivalOrderIsForgotten | sentinel_os/event_v1.py:319-331 | the order of folding is the same for every permutation exactly when any two events with one key are one event |
| Events.AssemblyForgetsArrival | sentinel_os/event_v1.py:304-388 | then the whole result, or the refusal, is the same for every permutation |
| Events.ResultForgetsArrivalExactly | sentinel_os/event_v1.py:304-388 | what accepted events assemble to is the same for every permutation exactly when any two with one key have the same kind and detail, and all last writers of each field, facts or claims, hold one value |
| Events.AcceptedExactly | sentinel_os/event_v1.py:331-343 | events are accepted exactly when each is valid and of the episode, in whatever order they arrive |
| Events.FieldsHoldTheLastWriter | sentinel_os/event_v1.py:347-362 | each judged field holds value and stamp of its greatest-key non-attested writer, each reported field its greatest-key attested one; provenance covers exactly the judged fields |
| Events.ClaimsNeverReachJudgment | sentinel_os/event_v1.py:314-317 | one more attested event, anywhere, changes nothing that is judged, nor any stamp |
| Events.TimelineRunsForward | sentinel_os/event_v1.py:345-388 | one moment per event, from zero, never back, each naming its event |
| Detector.RunDetection | sentinel_os/twin_detector.py:168-307 | the four loops give exactly the specified lists, breaks and verdict |
| Detector.EveryRowIsPlacedOnce | sentinel_os/twin_detector.py:213-254 | each in-window row is on exactly the list of its class, and the lists hold as many entries as there are rows |
| Detector.EachIdIsOnOneList | sentinel_os/twin_detector.py:213-254 | with one row per id, each id is on exactly one of match, diverge, missing, pending |
| Detector.CleanExactly | sentinel_os/twin_detector.py:213-289 | CLEAN exactly when every in-window row matches or is pending, every entry is on the feed, every submission is accounted for and no neighbours break |
| Detector.CleanMeansWitnessed | sentinel_os/twin_detector.py:213-289 | under CLEAN each in-window row is replicated with both hashes, or absent and younger than the service level |
| Detector.ChainIsWholeExactly | sentinel_os/twin_detector.py:278-287 | with one entry per id, no break is reported exactly when all consecutive ids link, in any order of arrival |
| Detector.HonestCopy | sentinel_os/twin_detector.py:176-289 | a contiguous copy of a linked feed, whose envelopes where opened hold verifying rows with the snapshots shown, never diverges or breaks; it has no extras exactly when the window covers it; over the default window it is CLEAN exactly when the submissions are accounted for |
| Deck.StricterWins | sentinel_os/regulatory_checks.py:324-350 | the pairwise rule returns the stricter tier in one total order of strictness, the first on a tie |
| Deck.ConflictExactly | sentinel_os/regulatory_deck.py:385-409 | a conflict is reported on a variable exactly when two lenses claim different tiers for it |
| Deck.ConflictIsStrictest | sentinel_os/regulatory_deck.py:399-441 | what is reported is the strictest tier claimed, credited to a lens that claims it, with every claim listed under its lens |
| Deck.ConflictsForgetOrder | sentinel_os/regulatory_deck.py:385-441 | the conflicts depend on what each lens raised, not on the interleaving |
| Disclosure.InsertionOrderDoesNotMatter | sentinel_os/regulatory_deck.py:515-561 | the conflicts found on an episode are the same for every insertion order of the same lenses |
| Disclosure.EveryInsertionIsBound | sentinel_os/regulatory_deck.py:227-248 | over any run, from any ledger of which it is true, no insertion is recorded before its identity is bound to exactly the content inserted |
| Disclosure.ChangedContentIsRefused | sentinel_os/governance/ledger_postgres.py:1287-1356 | no two insertions of one identity ever carry different content, across restarts as well |
| Disclosure.RegulatoryDeck.Insert | sentinel_os/regulatory_deck.py:180-257 | validate, bind, record, activate: each failure leaves exactly the earlier steps done |
| Disclosure.RegulatoryDeck.Remove | sentinel_os/regulatory_deck.py:259-288 | a lens leaves exactly when its removal is recorded |
| Disclosure.RegulatoryDeck.Judge | sentinel_os/regulatory_deck.py:515-561 | the disclosures written and the outcome, for a write that raises at any position |
| Disclosure.DisclosedBeforeAction | sentinel_os/regulatory_deck.py:515-561 | judgment writes only disclosures, each credited to an inserted live lens; when it returns or blocks its findings are those disclosures in order; the inserted set is untouched |
| Disclosure.BlocksExactly | sentinel_os/regulatory_deck.py:534-561 | it blocks exactly when it gets to the end and a lens's own finding blocks, naming the first such lens |
| Disclosure.ActiveIsTheRecord | sentinel_os/regulatory_deck.py:180-288 | over any run on any ledger, whichever ledger calls raise, the lenses in force are the fold of the insertions and removals recorded since the deck took it up, one per identity |
| Disclosure.WholeRecordExactly | sentinel_os/regulatory_deck.py:180-288 | the lenses in force, by identity, are those the whole ledger says are inserted exactly when each identity the earlier record left in has been inserted or taken out since |
| Disclosure.RestartAgrees | sentinel_os/sentinel_worker.py:155-203 | inserting the one lens left in again, unchanged, brings deck and whole ledger into agreement |
| Equity.FlagGroups | sentinel_os/regulatory_checks.py:1056-1079 | rates, maximum and ratios flag exactly the groups some other group beats by cross-multiplication, in order |
| Equity.CheckStatisticalOutcomeEquity | sentinel_os/regulatory_checks.py:997-1108 | the loops give the specified screen, indeterminate cases included |
| Equity.CheckGeographicOutcomeEquity | sentinel_os/regulatory_checks.py:1357-1468 | the same for both geography tiers, a missing place counting in neither |
| Equity.FlaggedExactly | sentinel_os/regulatory_checks.py:1042-1079 | a group is flagged exactly when it is admitted and some admitted h has 5 fav(g) tot(h) < 4 fav(h) tot(g) |
| Equity.BestIsNeverFlagged | sentinel_os/regulatory_checks.py:1073-1079 | a group none does better than is never flagged |
| Equity.ScreenForgetsOrder | sentinel_os/regulatory_checks.py:1042-1079 | the screen is the same for every permutation of the cohort |
| Equity.FlaggedPlacesExactly | sentinel_os/regulatory_checks.py:1357-1468 | in each tier a place is flagged exactly when it has enough observations and so has some h with 5 fav(g) tot(h) < 4 fav(h) tot(g) |
| Equity.GeographicScreenForgetsOrder | sentinel_os/regulatory_checks.py:1357-1468 | the geographic screen is the same for every permutation of the cohort |
| Equity.HardCountsAreWeights | sentinel_os/regulatory_checks.py:1394-1411 | on one-hot distributions the weighted tallies are the hard counts |
| Egress.LatestApprovalStates | sentinel_os/contract_egress.py:148-166 | the loop gives the specified state of every approval |
| Egress.StateIsLastGiven | sentinel_os/contract_egress.py:148-166 | a field of an approval holds the last non-empty value any of its rows gave it |
| Egress.StateIsFiledAndSigned | sentinel_os/contract_egress.py:148-166 | each state carries its own id and the last authority behind it |
| Egress.PermittedByAll | sentinel_os/contract_cassette.py:323-335 | a purpose is permitted exactly when every restriction term permits it |
| Egress.EvaluateEgress | sentinel_os/contract_egress.py:228-279 | the decision and every reason, in order |
| Egress.AuthorizedExactly | sentinel_os/contract_egress.py:169-279 | authorized exactly when there is a contract, no term prohibits the purpose, every restriction term permits it, and any approval needed is granted, unexpired and unrevoked at that time with readable times |
| Egress.RevocationIsPermanent | sentinel_os/contract_egress.py:148-279 | after a row with a revocation time, no later rows that give none let an egress needing the approval through at or after it |
| Egress.RevocationExactly | sentinel_os/contract_egress.py:148-279 | no later rows without a revocation time can let an egress through that otherwise could be exactly when the rows gave such a time and it is not after the egress, or cannot be read |
| Egress.RecordedRevocationsAreDated | sentinel_os/governance/ledger_postgres.py:2320-2322 | where no undated revocation is ever written, an approval with a revoking row has a revocation time |
| Egress.TimelessRevocationIsUndone | sentinel_os/contract_egress.py:148-225 | a revocation without a time, which only another writer can leave, stops every egress until the next grant row, and not after it |

## Left out

- Floating point: times, weights, rates and ratios are integers or reals, so a ratio that lies on the four-fifths line only after rounding is not modelled; reported figures are not rounded.
- Fractional and negative maturation horizons: a rule's horizon is a whole number of seconds.
- Unicode decimal digits in declarations: only ASCII digits count as digits.
- The obligation lifecycle after opening (`resolve`, `stay_open`, `abandon`, `validate_obligation`, `horizon_honored`): flat checks and one sum, which would only add easy members.
- The text of messages, findings and evidence beyond the fields the decisions read.
- `json.dumps(default=str)`: values of types JSON does not have are not modelled, so neither are two such values that print alike.
- Torn writes: a file write in the custodian happens or does not.
- A raise of `deep_verify_row` inside the detector: the detector's deep check answers yes or no.
- Payload checksums at claim: a corrupted payload is a claim followed by a non-retryable failure, both of which are modelled.
- The dialect facades, polling, metrics and read views of the queue: they change no state.
- Lua's `2 ^ (attempts - 1)` is exact here; the original's overflows to infinity and is then capped.
- A ledger call of the deck that writes and then raises: the recorded and the active lenses could then differ.
- Observer review, `explain` and the cohort rollup's own arithmetic: the first two only read, the last is an input.
- Cassette validation, hashing and swapping: a lens and a harness are given with their hashes and settings.
- The loop guard's last-output hash and timestamp, which nothing reads.
- Postgres, Redis, HTTP, threads, logging and configuration: the steps above are what they are asked to do.
- `governance/ledger_postgres.py` beyond the existence check and the binding rule: its append is one atomic step.
