/** The transmission queue: sentinel_os/queue_schema.py and the scripts it runs atomically in
    Redis, sentinel_os/lua/. One script is one step; a worker may crash between any two. */
module Queue {
  import opened Wrappers
  import opened Sequences

  /* -------- what Redis holds -------- */

  datatype Status = Pending | Scheduled | Processing | Dead | Done

  datatype Outcome = OK | STALE | GONE | SCHEDULED | DEAD

  // claimed_by, claim_id, claimed_at_ms and lease_deadline_ms are set and deleted together.
  datatype Lease = Lease(worker: string, claimId: string, claimedAt: int, deadline: int)

  // dead_at_ms, dead_reason and escalate.
  datatype Death = Death(at: int, reason: string, escalate: bool)

  datatype ErrorRecord = ErrorRecord(attempt: int, reason: string, worker: string, at: int)

  // A job hash.
  datatype Job = Job(
    payload: string,
    status: Status,
    attempts: int,
    maxAttempts: int,
    enqueuedAt: int,
    lease: Option<Lease>,
    nextRetryAt: Option<int>,
    death: Option<Death>,
    completedAt: Option<int>,
    result: Option<string>)

  datatype Counters = Counters(
    enqueued: nat, duplicates: nat, completed: nat, retries: nat, dead: nat, reaped: nat,
    requeued: nat, heartbeats: nat, orphanRefs: nat,
    staleAcks: nat, staleFails: nat, staleHeartbeats: nat)

  // A sorted set: its members and their scores.
  type SortedSet = map<string, int>

  datatype State = State(
    now: int,
    jobs: map<string, Job>,
    pending: seq<string>,        // pushed at the front, popped at the end
    scheduled: SortedSet,        // by time of retry
    processing: SortedSet,       // by lease deadline
    dead: SortedSet,             // by time of death
    done: SortedSet,             // by time of completion
    orphans: seq<string>,
    errors: map<string, seq<ErrorRecord>>,
    counters: Counters)

  const NONE := Counters(0, 0, 0, 0, 0, 0, 0, 0, 0, 0, 0, 0)

  function Empty(now: int): State {
    State(now, map[], [], map[], map[], map[], map[], [], map[], NONE)
  }

  datatype Config = Config(keep: int, baseBackoff: nat, maxBackoff: nat, errorKeep: int)

  // Pops a claim may spend on references without a job hash.
  const MAX_SCAN: nat := 8

  // ZRANGEBYSCORE z -inf now LIMIT 0 batch: the lowest scores first (a negative batch is no limit).
  ghost predicate IsRange(z: SortedSet, now: int, batch: int, ids: seq<string>) {
    && NoDuplicates(ids)
    && (forall id | id in ids :: id in z && z[id] <= now)
    && (forall i, j | 0 <= i < j < |ids| :: ids[i] in z && ids[j] in z && z[ids[i]] <= z[ids[j]])
    && (batch >= 0 ==> |ids| <= batch)
    && (forall id | id in z && z[id] <= now && id !in ids ::
          |ids| == batch && forall other | other in ids :: other in z && z[other] <= z[id])
  }

  // LPUSH then LTRIM 0 (keep - 1), whose end counts from the back when negative.
  function Trail(trail: seq<ErrorRecord>, record: ErrorRecord, keep: int): seq<ErrorRecord> {
    var longer := [record] + trail;
    if keep >= 1 then longer[..if keep < |longer| then keep else |longer|]
    else longer[..if |longer| + keep > 0 then |longer| + keep else 0]
  }

  function TrailOf(s: State, id: string): seq<ErrorRecord> {
    if id in s.errors then s.errors[id] else []
  }

  function RecordError(c: Config, s: State, id: string, reason: string, worker: string): (r: State)
    requires id in s.jobs
    ensures r.jobs == s.jobs
  {
    var record := ErrorRecord(s.jobs[id].attempts, reason, worker, s.now);
    s.(errors := s.errors[id := Trail(TrailOf(s, id), record, c.errorKeep)])
  }

  /* -------- the scripts -------- */

  function OwnerCheck(s: State, id: string, worker: string, claimId: string): Outcome {
    if id !in s.jobs then GONE
    else if s.jobs[id].status != Processing then STALE
    else match s.jobs[id].lease
      case None => STALE
      case Some(lease) => if lease.worker != worker || lease.claimId != claimId then STALE else OK
  }

  // A finished job answers as it did when finishing deleted it.
  predicate IsFinished(s: State, id: string) {
    id in s.jobs && s.jobs[id].status == Done
  }

  // enqueue.lua
  function Enqueued(s: State, id: string, payload: string, maxAttempts: int): (State, bool, Status) {
    if id in s.jobs then
      (s.(counters := s.counters.(duplicates := s.counters.duplicates + 1)), false, s.jobs[id].status)
    else
      var job := Job(payload, Pending, 0, maxAttempts, s.now, None, None, None, None, None);
      (s.(jobs := s.jobs[id := job], pending := [id] + s.pending,
          counters := s.counters.(enqueued := s.counters.enqueued + 1)), true, Pending)
  }

  // One due retry moves to the back of the line; only promote_due.lua also marks its hash.
  function PromotedOne(s: State, id: string, mark: bool): State {
    var moved := s.(scheduled := s.scheduled - {id}, pending := [id] + s.pending);
    if mark && id in s.jobs then moved.(jobs := s.jobs[id := s.jobs[id].(status := Pending)]) else moved
  }

  function Promoted(s: State, due: seq<string>, mark: bool): State {
    if due == [] then s
    else PromotedOne(Promoted(s, due[..|due| - 1], mark), due[|due| - 1], mark)
  }

  function Leased(s: State, id: string, worker: string, claimId: string, lease: int): State
    requires id in s.jobs
  {
    var job := s.jobs[id].(status := Processing, attempts := s.jobs[id].attempts + 1,
                           lease := Some(Lease(worker, claimId, s.now, s.now + lease)));
    s.(jobs := s.jobs[id := job], processing := s.processing[id := s.now + lease])
  }

  function Popped(s: State): State
    requires s.pending != []
  {
    s.(pending := s.pending[..|s.pending| - 1])
  }

  function Quarantined(s: State, id: string): State {
    s.(orphans := [id] + s.orphans, counters := s.counters.(orphanRefs := s.counters.orphanRefs + 1))
  }

  // Pop until a reference has a job hash.
  function Taken(s: State, worker: string, claimId: string, lease: int, scans: nat): (State, Option<string>)
    decreases scans
  {
    if scans == 0 || s.pending == [] then (s, None)
    else
      var id := s.pending[|s.pending| - 1];
      if id in s.jobs then (Leased(Popped(s), id, worker, claimId, lease), Some(id))
      else Taken(Quarantined(Popped(s), id), worker, claimId, lease, scans - 1)
  }

  // claim.lua
  function Claimed(s: State, worker: string, claimId: string, lease: int, due: seq<string>): (State, Option<string>) {
    Taken(Promoted(s, due, false), worker, claimId, lease, MAX_SCAN)
  }

  // ZREMRANGEBYSCORE z -inf upTo
  function Above(z: SortedSet, upTo: int): SortedSet {
    map id | id in z && z[id] > upTo :: z[id]
  }

  function Pruned(s: State, upTo: int): State {
    s.(done := Above(s.done, upTo))
  }

  // The completion of a job whose record is retained.
  function Completed(s: State, id: string, result: Option<string>): State
    requires id in s.jobs
  {
    var job := s.jobs[id].(status := Done, lease := None, completedAt := Some(s.now),
                           result := if result.Some? then result else s.jobs[id].result);
    s.(jobs := s.jobs[id := job], processing := s.processing - {id}, done := s.done[id := s.now],
       counters := s.counters.(completed := s.counters.completed + 1))
  }

  function Deleted(s: State, id: string): State {
    s.(jobs := s.jobs - {id}, errors := s.errors - {id}, processing := s.processing - {id},
       counters := s.counters.(completed := s.counters.completed + 1))
  }

  // ack.lua
  function Acked(c: Config, s: State, id: string, worker: string, claimId: string, result: Option<string>):
    (State, Outcome)
  {
    var owner := OwnerCheck(s, id, worker, claimId);
    if owner == OK then
      if c.keep > 0 then (Pruned(Completed(s, id, result), s.now - c.keep), OK) else (Deleted(s, id), OK)
    else if IsFinished(s, id) then (s, GONE)
    else (s.(counters := s.counters.(staleAcks := s.counters.staleAcks + 1)), owner)
  }

  function Power(n: nat): nat {
    if n == 0 then 1 else 2 * Power(n - 1)
  }

  // Capped exponential backoff after the given attempt, plus jitter.
  function Backoff(c: Config, attempts: int, jitter: nat): int {
    var raw := c.baseBackoff * Power(if attempts < 1 then 0 else attempts - 1);
    (if raw < c.maxBackoff then raw else c.maxBackoff) + jitter
  }

  const UNCLASSIFIED := "unclassified"
  const PROCESS_CRASH := "process_crash"

  function Buried(s: State, id: string, reason: string): State
    requires id in s.jobs
  {
    var job := s.jobs[id].(status := Dead, lease := None,
                           death := Some(Death(s.now, reason, reason == UNCLASSIFIED)));
    s.(jobs := s.jobs[id := job], processing := s.processing - {id}, dead := s.dead[id := s.now],
       counters := s.counters.(dead := s.counters.dead + 1))
  }

  function Rescheduled(s: State, id: string, backoff: int): State
    requires id in s.jobs
  {
    var job := s.jobs[id].(status := Scheduled, lease := None, nextRetryAt := Some(s.now + backoff));
    s.(jobs := s.jobs[id := job], processing := s.processing - {id},
       scheduled := s.scheduled[id := s.now + backoff],
       counters := s.counters.(retries := s.counters.retries + 1))
  }

  // fail.lua
  function Failed(c: Config, s: State, id: string, worker: string, claimId: string,
                  reason: string, retryable: bool, jitter: nat): (State, Outcome) {
    var owner := OwnerCheck(s, id, worker, claimId);
    if owner == OK then
      var recorded := RecordError(c, s, id, reason, worker);
      var job := s.jobs[id];
      if !retryable || job.attempts >= job.maxAttempts then (Buried(recorded, id, reason), DEAD)
      else (Rescheduled(recorded, id, Backoff(c, job.attempts, jitter)), SCHEDULED)
    else if IsFinished(s, id) then (s, GONE)
    else (s.(counters := s.counters.(staleFails := s.counters.staleFails + 1)), owner)
  }

  // heartbeat.lua
  function Renewed(s: State, id: string, worker: string, claimId: string, lease: int): (State, Outcome) {
    var owner := OwnerCheck(s, id, worker, claimId);
    if owner == OK then
      var held := s.jobs[id].lease.value.(deadline := s.now + lease);
      (s.(jobs := s.jobs[id := s.jobs[id].(lease := Some(held))],
          processing := s.processing[id := s.now + lease],
          counters := s.counters.(heartbeats := s.counters.heartbeats + 1)), OK)
    else if IsFinished(s, id) then (s, GONE)
    else (s.(counters := s.counters.(staleHeartbeats := s.counters.staleHeartbeats + 1)), owner)
  }

  datatype Disposition = ToPending | ToDead | ToOrphans

  function Returned(s: State, id: string): State
    requires id in s.jobs
  {
    s.(jobs := s.jobs[id := s.jobs[id].(status := Pending, lease := None)],
       processing := s.processing - {id}, pending := [id] + s.pending)
  }

  function CountReaped(s: State): State {
    s.(counters := s.counters.(reaped := s.counters.reaped + 1))
  }

  // One expired lease: the crash is recorded, and the job goes back in line unless its budget is spent.
  function ReapedOne(c: Config, s: State, id: string): (State, Disposition) {
    if id !in s.jobs then
      (Quarantined(s.(processing := s.processing - {id}), id), ToOrphans)
    else
      var job := s.jobs[id];
      var worker := if job.lease.Some? then job.lease.value.worker else "unknown";
      var recorded := RecordError(c, s, id, PROCESS_CRASH, worker);
      if job.attempts >= job.maxAttempts then (CountReaped(Buried(recorded, id, PROCESS_CRASH)), ToDead)
      else (CountReaped(Returned(recorded, id)), ToPending)
  }

  // reap.lua
  function Reaped(c: Config, s: State, expired: seq<string>): (State, seq<(string, Disposition)>) {
    if expired == [] then (s, [])
    else
      var (earlier, report) := Reaped(c, s, expired[..|expired| - 1]);
      var id := expired[|expired| - 1];
      var (t, where') := ReapedOne(c, earlier, id);
      (t, report + [(id, where')])
  }

  // requeue_dead.lua
  function Requeued(s: State, id: string): (State, Outcome) {
    if id !in s.jobs || s.jobs[id].status == Done then (s, GONE)
    else if s.jobs[id].status != Dead then (s, STALE)
    else
      var job := s.jobs[id].(status := Pending, attempts := 0, death := None);
      (s.(jobs := s.jobs[id := job], dead := s.dead - {id}, pending := [id] + s.pending,
          counters := s.counters.(requeued := s.counters.requeued + 1)), OK)
  }

  /* -------- the audit -------- */

  // How long before a done record expires the audit stops looking for it.
  function Grace(c: Config): int {
    if c.keep > 1000 then c.keep - 1000 else 0
  }

  // verify_invariants first prunes the done set.
  function Audited(c: Config, s: State): State {
    if c.keep > 0 then Pruned(s, s.now - Grace(c)) else s
  }

  // key.rsplit(":", 1)[1] of a job key: the id, or what follows its last colon.
  function Tail(id: string): (tail: string)
    ensures ':' !in tail
    ensures ':' !in id ==> tail == id
  {
    if ':' !in id then id else Tail(id[1..])
  }

  function JobIds(s: State): set<string> {
    set id | id in s.jobs :: Tail(id)
  }

  function Places(s: State, id: string): set<Status> {
    (if id in s.pending then {Pending} else {}) +
    (if id in s.scheduled then {Scheduled} else {}) +
    (if id in s.processing then {Processing} else {}) +
    (if id in s.dead then {Dead} else {}) +
    (if id in s.done then {Done} else {})
  }

  // Nothing for the audit to report.
  ghost predicate Clean(s: State) {
    && NoDuplicates(s.pending)
    && (forall id | id in s.jobs :: Places(s, Tail(id)) == {s.jobs[id].status})
    && (forall id | id in s.pending :: id in JobIds(s))
    && s.scheduled.Keys <= JobIds(s)
    && s.processing.Keys <= JobIds(s)
    && s.dead.Keys <= JobIds(s)
    && s.done.Keys <= JobIds(s)
  }
}
