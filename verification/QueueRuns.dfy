/** Every run of the transmission queue. */
module QueueRuns {
  import opened Wrappers
  import opened Sequences
  import opened Queue

  // One atomic step. The clock is the Redis server's; Expire is Redis dropping a done record
  // whose time is up; the batches are what ZRANGEBYSCORE answered.
  datatype Command =
    | Tick(to: int)
    | Enqueue(id: string, payload: string, maxAttempts: int)
    | Claim(worker: string, claimId: string, lease: int, batch: int, due: seq<string>)
    | Ack(id: string, worker: string, claimId: string, result: Option<string>)
    | Fail(id: string, worker: string, claimId: string, reason: string, retryable: bool, jitter: nat)
    | Heartbeat(id: string, worker: string, claimId: string, lease: int)
    | PromoteDue(batch: int, due: seq<string>)
    | Reap(batch: int, expired: seq<string>)
    | RequeueDead(id: string)
    | Audit
    | Expire(id: string)

  function Expired(s: State, id: string): State {
    s.(jobs := s.jobs - {id}, errors := s.errors - {id})
  }

  ghost predicate Enabled(c: Config, s: State, command: Command) {
    match command
    case Tick(to) => s.now <= to
    case Claim(_, _, _, batch, due) => IsRange(s.scheduled, s.now, batch, due)
    case PromoteDue(batch, due) => IsRange(s.scheduled, s.now, batch, due)
    case Reap(batch, expired) => IsRange(s.processing, s.now, batch, expired)
    case Expire(id) =>
      IsFinished(s, id) && s.jobs[id].completedAt.Some? && s.jobs[id].completedAt.value + c.keep <= s.now
    case _ => true
  }

  function Next(c: Config, s: State, command: Command): State {
    match command
    case Tick(to) => s.(now := to)
    case Enqueue(id, payload, maxAttempts) => Enqueued(s, id, payload, maxAttempts).0
    case Claim(worker, claimId, lease, _, due) => Claimed(s, worker, claimId, lease, due).0
    case Ack(id, worker, claimId, result) => Acked(c, s, id, worker, claimId, result).0
    case Fail(id, worker, claimId, reason, retryable, jitter) =>
      Failed(c, s, id, worker, claimId, reason, retryable, jitter).0
    case Heartbeat(id, worker, claimId, lease) => Renewed(s, id, worker, claimId, lease).0
    case PromoteDue(_, due) => Promoted(s, due, true)
    case Reap(_, expired) => Reaped(c, s, expired).0
    case RequeueDead(id) => Requeued(s, id).0
    case Audit => Audited(c, s)
    case Expire(id) => Expired(s, id)
  }

  function Run(c: Config, start: int, commands: seq<Command>): State {
    if commands == [] then Empty(start)
    else Next(c, Run(c, start, commands[..|commands| - 1]), commands[|commands| - 1])
  }

  ghost predicate Legal(c: Config, start: int, commands: seq<Command>) {
    commands == [] ||
    var earlier := commands[..|commands| - 1];
    Legal(c, start, earlier) && Enabled(c, Run(c, start, earlier), commands[|commands| - 1])
  }

  /* -------- what every run keeps -------- */

  // Attempts a job may use before it must be requeued by hand: at least the first.
  function Budget(job: Job): int {
    if job.maxAttempts > 1 then job.maxAttempts else 1
  }

  /** The queue's design invariant for one id, as far as the scripts keep it: a live job is in
      exactly one of pending, scheduled, processing and dead, and the place is its status. The one
      exception is a retry promoted inside claim.lua, which is pending but still says scheduled. */
  ghost predicate Live(c: Config, s: State, id: string) {
    if id !in s.jobs then
      id !in s.pending && id !in s.scheduled && id !in s.processing && id !in s.dead
    else
      var job := s.jobs[id];
      && (id in s.pending ==> job.status == Pending || job.status == Scheduled)
      && (id in s.scheduled <==> job.status == Scheduled && id !in s.pending)
      && (id in s.processing <==> job.status == Processing)
      && (id in s.dead <==> job.status == Dead)
      && (job.status == Pending ==> id in s.pending)
      && (job.lease.Some? <==> job.status == Processing)
      && (job.status == Processing ==> s.processing[id] == job.lease.value.deadline)
      && (job.status == Scheduled ==> job.nextRetryAt.Some?)
      && (id in s.scheduled ==> s.scheduled[id] == job.nextRetryAt.value)
      && (job.death.Some? <==> job.status == Dead)
  }

  // No job is tried more often than its budget allows.
  ghost predicate Budgeted(s: State, id: string) {
    id in s.jobs ==>
      var job := s.jobs[id];
      && (job.status == Pending || job.status == Scheduled ==> 0 <= job.attempts < Budget(job))
      && (job.status == Processing ==> 1 <= job.attempts <= Budget(job))
  }

  // Why a dead job died is the newest entry of its trail.
  ghost predicate Explained(c: Config, s: State, id: string) {
    id in s.jobs && s.jobs[id].status == Dead && c.errorKeep >= 0 ==>
      && s.jobs[id].death.Some?
      && TrailOf(s, id) != []
      && TrailOf(s, id)[0].reason == s.jobs[id].death.value.reason
      && TrailOf(s, id)[0].attempt == s.jobs[id].attempts
      && TrailOf(s, id)[0].at == s.jobs[id].death.value.at
  }

  /** A finished job is in the done set until the audit's grace period is over; an entry of the done
      set is a finished job, or is past its retention (and may then outlive the record). */
  ghost predicate Retained(c: Config, s: State, id: string) {
    && (id in s.jobs && s.jobs[id].status == Done ==>
          && c.keep > 0
          && s.jobs[id].completedAt.Some?
          && var at := s.jobs[id].completedAt.value;
             at <= s.now && (id in s.done || at <= s.now - Grace(c)))
    && (id in s.done ==>
          && c.keep > 0
          && if IsFinished(s, id) then s.jobs[id].completedAt == Some(s.done[id])
             else s.done[id] <= s.now - c.keep)
  }

  ghost predicate Sound(c: Config, s: State, id: string) {
    Live(c, s, id) && Budgeted(s, id) && Explained(c, s, id) && Retained(c, s, id)
  }

  // No job is lost: everything admitted is finished or is in one of the four places.
  ghost predicate Balanced(s: State) {
    && s.counters.enqueued == s.counters.completed + |s.pending| + |s.scheduled| + |s.processing| + |s.dead|
    && s.counters.dead == s.counters.requeued + |s.dead|
  }

  ghost predicate WellFormed(c: Config, s: State) {
    && NoDuplicates(s.pending)
    && s.orphans == [] && s.counters.orphanRefs == 0
    && (forall id :: Sound(c, s, id))
    && Balanced(s)
  }

  // Nothing is said of any other id.
  ghost predicate Elsewhere(s: State, t: State, id: string) {
    && t.now == s.now
    && forall x | x != id ::
         && (x in t.jobs <==> x in s.jobs) && (x in s.jobs ==> t.jobs[x] == s.jobs[x])
         && (x in t.pending <==> x in s.pending)
         && (x in t.scheduled <==> x in s.scheduled) && (x in s.scheduled ==> t.scheduled[x] == s.scheduled[x])
         && (x in t.processing <==> x in s.processing) && (x in s.processing ==> t.processing[x] == s.processing[x])
         && (x in t.dead <==> x in s.dead)
         && (x in t.done <==> x in s.done) && (x in s.done ==> t.done[x] == s.done[x])
         && TrailOf(t, x) == TrailOf(s, x)
  }

  lemma OneIdChanged(c: Config, s: State, t: State, id: string)
    requires WellFormed(c, s) && Elsewhere(s, t, id) && Sound(c, t, id)
    ensures forall x :: Sound(c, t, x)
  {
    forall x
      ensures Sound(c, t, x)
    {
      if x != id {
        assert Sound(c, s, x);
        SameElsewhere(c, s, t, id, x);
      }
    }
  }

  lemma SameElsewhere(c: Config, s: State, t: State, id: string, x: string)
    requires Sound(c, s, x) && Elsewhere(s, t, id) && x != id
    ensures Sound(c, t, x)
  {
  }

  lemma SizeOf(z: SortedSet, id: string, score: int)
    ensures |z[id := score]| == if id in z then |z| else |z| + 1
    ensures |z - {id}| == if id in z then |z| - 1 else |z|
  {
    assert z[id := score].Keys == z.Keys + {id};
    assert (z - {id}).Keys == z.Keys - {id};
  }

  // The books of the new state balance, and nothing became an orphan.
  ghost predicate Counted(s: State, t: State) {
    && NoDuplicates(t.pending) && Balanced(t)
    && t.orphans == s.orphans && t.counters.orphanRefs == s.counters.orphanRefs
  }

  lemma NewStateIsWellFormed(c: Config, s: State, t: State, id: string)
    requires WellFormed(c, s) && Elsewhere(s, t, id) && Sound(c, t, id)
    requires Counted(s, t)
    ensures WellFormed(c, t)
  {
    hide Sound, Elsewhere, Balanced, NoDuplicates;
    OneIdChanged(c, s, t, id);
  }

  lemma CountersAreFree(c: Config, s: State, t: State)
    requires WellFormed(c, s) && t == s.(counters := t.counters) && Balanced(t)
    requires t.counters.orphanRefs == s.counters.orphanRefs
    ensures WellFormed(c, t)
  {
    hide Sound, Balanced;
    forall x
      ensures Sound(c, t, x)
    {
      assert Sound(c, s, x);
      CountersAreNotRead(c, s, t, x);
    }
  }

  lemma CountersAreNotRead(c: Config, s: State, t: State, x: string)
    requires Sound(c, s, x) && t == s.(counters := t.counters)
    ensures Sound(c, t, x)
  {
  }

  lemma AdmitOthers(c: Config, s: State, id: string, payload: string, maxAttempts: int)
    requires id !in s.jobs
    ensures Elsewhere(s, Enqueued(s, id, payload, maxAttempts).0, id)
  {
  }

  lemma AdmitSound(c: Config, s: State, id: string, payload: string, maxAttempts: int)
    requires Sound(c, s, id) && id !in s.jobs
    ensures Sound(c, Enqueued(s, id, payload, maxAttempts).0, id)
  {
  }

  lemma AdmitCounts(c: Config, s: State, id: string, payload: string, maxAttempts: int)
    requires Sound(c, s, id) && id !in s.jobs && Balanced(s) && NoDuplicates(s.pending)
    ensures Counted(s, Enqueued(s, id, payload, maxAttempts).0)
  {
    hide NoDuplicates;
    DistinctCons(id, s.pending);
  }

  lemma AdmitKeeps(c: Config, s: State, id: string, payload: string, maxAttempts: int)
    requires WellFormed(c, s) && id !in s.jobs
    ensures WellFormed(c, Enqueued(s, id, payload, maxAttempts).0)
  {
    hide Sound, Elsewhere, NoDuplicates, Balanced, Counted, Enqueued;
    assert Sound(c, s, id);
    AdmitOthers(c, s, id, payload, maxAttempts);
    AdmitSound(c, s, id, payload, maxAttempts);
    AdmitCounts(c, s, id, payload, maxAttempts);
    NewStateIsWellFormed(c, s, Enqueued(s, id, payload, maxAttempts).0, id);
  }

  lemma EnqueueKeeps(c: Config, s: State, id: string, payload: string, maxAttempts: int)
    requires WellFormed(c, s)
    ensures WellFormed(c, Enqueued(s, id, payload, maxAttempts).0)
  {
    if id in s.jobs {
      hide Sound, NoDuplicates;
      CountersAreFree(c, s, Enqueued(s, id, payload, maxAttempts).0);
    } else {
      AdmitKeeps(c, s, id, payload, maxAttempts);
    }
  }

  lemma PromoteOneOthers(c: Config, s: State, id: string, mark: bool)
    requires id in s.scheduled
    ensures Elsewhere(s, PromotedOne(s, id, mark), id)
  {
  }

  lemma PromoteOneSound(c: Config, s: State, id: string, mark: bool)
    requires Sound(c, s, id) && id in s.scheduled
    ensures Sound(c, PromotedOne(s, id, mark), id)
  {
  }

  lemma PromoteOneCounts(c: Config, s: State, id: string, mark: bool)
    requires Sound(c, s, id) && id in s.scheduled && Balanced(s) && NoDuplicates(s.pending)
    ensures Counted(s, PromotedOne(s, id, mark))
  {
    hide NoDuplicates;
    DistinctCons(id, s.pending);
    SizeOf(s.scheduled, id, 0);
  }

  lemma PromoteOneKeeps(c: Config, s: State, id: string, mark: bool)
    requires WellFormed(c, s) && id in s.scheduled
    ensures WellFormed(c, PromotedOne(s, id, mark))
  {
    hide Sound, Elsewhere, NoDuplicates, Balanced, Counted, PromotedOne;
    assert Sound(c, s, id);
    PromoteOneOthers(c, s, id, mark);
    PromoteOneSound(c, s, id, mark);
    PromoteOneCounts(c, s, id, mark);
    NewStateIsWellFormed(c, s, PromotedOne(s, id, mark), id);
  }

  lemma LeaseOthers(c: Config, s: State, id: string, front: seq<string>, worker: string, claimId: string, lease: int)
    requires s.pending == front + [id] && id in s.jobs && id !in front
    ensures Elsewhere(s, Leased(s.(pending := front), id, worker, claimId, lease), id)
  {
  }

  lemma LeaseSound(c: Config, s: State, id: string, front: seq<string>, worker: string, claimId: string, lease: int)
    requires Sound(c, s, id) && s.pending == front + [id] && id in s.jobs && id !in front
    ensures Sound(c, Leased(s.(pending := front), id, worker, claimId, lease), id)
  {
  }

  lemma LeaseCounts(c: Config, s: State, id: string, front: seq<string>, worker: string, claimId: string, lease: int)
    requires Sound(c, s, id) && s.pending == front + [id] && id in s.jobs && id !in front && Balanced(s)
             && NoDuplicates(s.pending)
    ensures Counted(s, Leased(s.(pending := front), id, worker, claimId, lease))
  {
    hide NoDuplicates;
    DistinctSnoc(front, id);
    SizeOf(s.processing, id, s.now + lease);
  }

  lemma LeaseKeeps(c: Config, s: State, id: string, front: seq<string>, worker: string, claimId: string, lease: int)
    requires WellFormed(c, s) && s.pending == front + [id] && id in s.jobs && id !in front
    ensures WellFormed(c, Leased(s.(pending := front), id, worker, claimId, lease))
  {
    hide Sound, Elsewhere, NoDuplicates, Balanced, Counted, Leased;
    assert Sound(c, s, id);
    LeaseOthers(c, s, id, front, worker, claimId, lease);
    LeaseSound(c, s, id, front, worker, claimId, lease);
    LeaseCounts(c, s, id, front, worker, claimId, lease);
    NewStateIsWellFormed(c, s, Leased(s.(pending := front), id, worker, claimId, lease), id);
  }

  lemma PopKeeps(c: Config, s: State, worker: string, claimId: string, lease: int)
    requires WellFormed(c, s) && s.pending != []
    ensures var id := s.pending[|s.pending| - 1];
            id in s.jobs && WellFormed(c, Leased(Popped(s), id, worker, claimId, lease))
  {
    var n := |s.pending| - 1;
    var front, id := s.pending[..n], s.pending[n];
    assert s.pending == front + [id];
    assert id in s.jobs by { assert Sound(c, s, id); }
    hide WellFormed, Leased;
    assert id !in front by { LastIsAlone(c, s, front, id); }
    LeaseKeeps(c, s, id, front, worker, claimId, lease);
  }

  lemma LastIsAlone(c: Config, s: State, front: seq<string>, id: string)
    requires WellFormed(c, s) && s.pending == front + [id]
    ensures id !in front
  {
    DistinctSnoc(front, id);
  }

  lemma CompleteOthers(c: Config, s: State, id: string, result: Option<string>)
    requires id in s.jobs && s.jobs[id].status == Processing && c.keep > 0
    ensures Elsewhere(s, Completed(s, id, result), id)
  {
  }

  lemma CompleteSound(c: Config, s: State, id: string, result: Option<string>)
    requires Sound(c, s, id) && id in s.jobs && s.jobs[id].status == Processing && c.keep > 0
    ensures Sound(c, Completed(s, id, result), id)
  {
  }

  lemma CompleteCounts(c: Config, s: State, id: string, result: Option<string>)
    requires Sound(c, s, id) && id in s.jobs && s.jobs[id].status == Processing && c.keep > 0 && Balanced(s)
             && NoDuplicates(s.pending)
    ensures Counted(s, Completed(s, id, result))
  {
    hide NoDuplicates;
    SizeOf(s.processing, id, 0);
  }

  lemma CompleteKeeps(c: Config, s: State, id: string, result: Option<string>)
    requires WellFormed(c, s) && id in s.jobs && s.jobs[id].status == Processing && c.keep > 0
    ensures WellFormed(c, Completed(s, id, result))
  {
    hide Sound, Elsewhere, NoDuplicates, Balanced, Counted, Completed;
    assert Sound(c, s, id);
    CompleteOthers(c, s, id, result);
    CompleteSound(c, s, id, result);
    CompleteCounts(c, s, id, result);
    NewStateIsWellFormed(c, s, Completed(s, id, result), id);
  }

  lemma DeleteOthers(c: Config, s: State, id: string)
    requires id in s.jobs && s.jobs[id].status == Processing && c.keep <= 0
    ensures Elsewhere(s, Deleted(s, id), id)
  {
  }

  lemma DeleteSound(c: Config, s: State, id: string)
    requires Sound(c, s, id) && id in s.jobs && s.jobs[id].status == Processing && c.keep <= 0
    ensures Sound(c, Deleted(s, id), id)
  {
  }

  lemma DeleteCounts(c: Config, s: State, id: string)
    requires Sound(c, s, id) && id in s.jobs && s.jobs[id].status == Processing && c.keep <= 0 && Balanced(s)
             && NoDuplicates(s.pending)
    ensures Counted(s, Deleted(s, id))
  {
    hide NoDuplicates;
    SizeOf(s.processing, id, 0);
  }

  lemma DeleteKeeps(c: Config, s: State, id: string)
    requires WellFormed(c, s) && id in s.jobs && s.jobs[id].status == Processing && c.keep <= 0
    ensures WellFormed(c, Deleted(s, id))
  {
    hide Sound, Elsewhere, NoDuplicates, Balanced, Counted, Deleted;
    assert Sound(c, s, id);
    DeleteOthers(c, s, id);
    DeleteSound(c, s, id);
    DeleteCounts(c, s, id);
    NewStateIsWellFormed(c, s, Deleted(s, id), id);
  }

  lemma BuryOthers(c: Config, s: State, id: string, reason: string, worker: string)
    requires id in s.jobs && s.jobs[id].status == Processing
    ensures Elsewhere(s, Buried(RecordError(c, s, id, reason, worker), id, reason), id)
  {
  }

  lemma BurySound(c: Config, s: State, id: string, reason: string, worker: string)
    requires Sound(c, s, id) && id in s.jobs && s.jobs[id].status == Processing
    ensures Sound(c, Buried(RecordError(c, s, id, reason, worker), id, reason), id)
  {
  }

  lemma BuryCounts(c: Config, s: State, id: string, reason: string, worker: string)
    requires Sound(c, s, id) && id in s.jobs && s.jobs[id].status == Processing && Balanced(s)
             && NoDuplicates(s.pending)
    ensures Counted(s, Buried(RecordError(c, s, id, reason, worker), id, reason))
  {
    hide NoDuplicates;
    hide Trail;
    SizeOf(s.processing, id, 0);
    SizeOf(s.dead, id, s.now);
  }

  lemma BuryKeeps(c: Config, s: State, id: string, reason: string, worker: string)
    requires WellFormed(c, s) && id in s.jobs && s.jobs[id].status == Processing
    ensures WellFormed(c, Buried(RecordError(c, s, id, reason, worker), id, reason))
  {
    hide Sound, Elsewhere, NoDuplicates, Balanced, Counted, Buried, RecordError;
    assert Sound(c, s, id);
    BuryOthers(c, s, id, reason, worker);
    BurySound(c, s, id, reason, worker);
    BuryCounts(c, s, id, reason, worker);
    NewStateIsWellFormed(c, s, Buried(RecordError(c, s, id, reason, worker), id, reason), id);
  }

  lemma RescheduleOthers(c: Config, s: State, id: string, reason: string, worker: string, backoff: int)
    requires id in s.jobs && s.jobs[id].status == Processing && s.jobs[id].attempts < s.jobs[id].maxAttempts
    ensures Elsewhere(s, Rescheduled(RecordError(c, s, id, reason, worker), id, backoff), id)
  {
  }

  lemma RescheduleSound(c: Config, s: State, id: string, reason: string, worker: string, backoff: int)
    requires Sound(c, s, id) && id in s.jobs && s.jobs[id].status == Processing
             && s.jobs[id].attempts < s.jobs[id].maxAttempts
    ensures Sound(c, Rescheduled(RecordError(c, s, id, reason, worker), id, backoff), id)
  {
  }

  lemma RescheduleCounts(c: Config, s: State, id: string, reason: string, worker: string, backoff: int)
    requires Sound(c, s, id) && id in s.jobs && s.jobs[id].status == Processing
             && s.jobs[id].attempts < s.jobs[id].maxAttempts && Balanced(s) && NoDuplicates(s.pending)
    ensures Counted(s, Rescheduled(RecordError(c, s, id, reason, worker), id, backoff))
  {
    hide NoDuplicates;
    hide Trail;
    SizeOf(s.processing, id, 0);
    SizeOf(s.scheduled, id, s.now + backoff);
  }

  lemma RescheduleKeeps(c: Config, s: State, id: string, reason: string, worker: string, backoff: int)
    requires WellFormed(c, s) && id in s.jobs && s.jobs[id].status == Processing
             && s.jobs[id].attempts < s.jobs[id].maxAttempts
    ensures WellFormed(c, Rescheduled(RecordError(c, s, id, reason, worker), id, backoff))
  {
    hide Sound, Elsewhere, NoDuplicates, Balanced, Counted, Rescheduled, RecordError;
    assert Sound(c, s, id);
    RescheduleOthers(c, s, id, reason, worker, backoff);
    RescheduleSound(c, s, id, reason, worker, backoff);
    RescheduleCounts(c, s, id, reason, worker, backoff);
    NewStateIsWellFormed(c, s, Rescheduled(RecordError(c, s, id, reason, worker), id, backoff), id);
  }

  lemma RenewOthers(c: Config, s: State, id: string, worker: string, claimId: string, lease: int)
    requires OwnerCheck(s, id, worker, claimId) == OK
    ensures Elsewhere(s, Renewed(s, id, worker, claimId, lease).0, id)
  {
  }

  lemma RenewSound(c: Config, s: State, id: string, worker: string, claimId: string, lease: int)
    requires Sound(c, s, id) && OwnerCheck(s, id, worker, claimId) == OK
    ensures Sound(c, Renewed(s, id, worker, claimId, lease).0, id)
  {
  }

  lemma RenewCounts(c: Config, s: State, id: string, worker: string, claimId: string, lease: int)
    requires Sound(c, s, id) && OwnerCheck(s, id, worker, claimId) == OK && Balanced(s) && NoDuplicates(s.pending)
    ensures Counted(s, Renewed(s, id, worker, claimId, lease).0)
  {
    hide NoDuplicates;
    SizeOf(s.processing, id, s.now + lease);
  }

  lemma RenewKeeps(c: Config, s: State, id: string, worker: string, claimId: string, lease: int)
    requires WellFormed(c, s) && OwnerCheck(s, id, worker, claimId) == OK
    ensures WellFormed(c, Renewed(s, id, worker, claimId, lease).0)
  {
    hide Sound, Elsewhere, NoDuplicates, Balanced, Counted, Renewed;
    assert Sound(c, s, id);
    RenewOthers(c, s, id, worker, claimId, lease);
    RenewSound(c, s, id, worker, claimId, lease);
    RenewCounts(c, s, id, worker, claimId, lease);
    NewStateIsWellFormed(c, s, Renewed(s, id, worker, claimId, lease).0, id);
  }

  lemma ReturnOthers(c: Config, s: State, id: string, reason: string, worker: string)
    requires id in s.jobs && s.jobs[id].status == Processing && s.jobs[id].attempts < s.jobs[id].maxAttempts
    ensures Elsewhere(s, Returned(RecordError(c, s, id, reason, worker), id), id)
  {
  }

  lemma ReturnSound(c: Config, s: State, id: string, reason: string, worker: string)
    requires Sound(c, s, id) && id in s.jobs && s.jobs[id].status == Processing
             && s.jobs[id].attempts < s.jobs[id].maxAttempts
    ensures Sound(c, Returned(RecordError(c, s, id, reason, worker), id), id)
  {
  }

  lemma ReturnCounts(c: Config, s: State, id: string, reason: string, worker: string)
    requires Sound(c, s, id) && id in s.jobs && s.jobs[id].status == Processing
             && s.jobs[id].attempts < s.jobs[id].maxAttempts && Balanced(s) && NoDuplicates(s.pending)
    ensures Counted(s, Returned(RecordError(c, s, id, reason, worker), id))
  {
    hide NoDuplicates;
    hide Trail;
    SizeOf(s.processing, id, 0);
    DistinctCons(id, s.pending);
  }

  lemma ReturnKeeps(c: Config, s: State, id: string, reason: string, worker: string)
    requires WellFormed(c, s) && id in s.jobs && s.jobs[id].status == Processing
             && s.jobs[id].attempts < s.jobs[id].maxAttempts
    ensures WellFormed(c, Returned(RecordError(c, s, id, reason, worker), id))
  {
    hide Sound, Elsewhere, NoDuplicates, Balanced, Counted, Returned, RecordError;
    assert Sound(c, s, id);
    ReturnOthers(c, s, id, reason, worker);
    ReturnSound(c, s, id, reason, worker);
    ReturnCounts(c, s, id, reason, worker);
    NewStateIsWellFormed(c, s, Returned(RecordError(c, s, id, reason, worker), id), id);
  }

  // Reaping one job is counting a burial or a return.
  lemma ReapedOneIs(c: Config, s: State, id: string)
    requires id in s.jobs && s.jobs[id].lease.Some?
    ensures var worker := s.jobs[id].lease.value.worker;
            var recorded := RecordError(c, s, id, PROCESS_CRASH, worker);
            ReapedOne(c, s, id).0 == CountReaped(if s.jobs[id].attempts >= s.jobs[id].maxAttempts
                                                 then Buried(recorded, id, PROCESS_CRASH) else Returned(recorded, id))
  {
    hide RecordError, Buried, Returned;
  }

  lemma ReapOneKeeps(c: Config, s: State, id: string)
    requires WellFormed(c, s) && id in s.processing
    ensures WellFormed(c, ReapedOne(c, s, id).0)
    ensures id in s.jobs
  {
    assert id in s.jobs && s.jobs[id].status == Processing && s.jobs[id].lease.Some? by { assert Sound(c, s, id); }
    hide WellFormed, Buried, Returned, RecordError, ReapedOne;
    var worker := s.jobs[id].lease.value.worker;
    ReapedOneIs(c, s, id);
    var recorded := RecordError(c, s, id, PROCESS_CRASH, worker);
    if s.jobs[id].attempts >= s.jobs[id].maxAttempts {
      BuryKeeps(c, s, id, PROCESS_CRASH, worker);
      CountingKeeps(c, Buried(recorded, id, PROCESS_CRASH));
    } else {
      ReturnKeeps(c, s, id, PROCESS_CRASH, worker);
      CountingKeeps(c, Returned(recorded, id));
    }
  }

  lemma CountingKeeps(c: Config, s: State)
    requires WellFormed(c, s)
    ensures WellFormed(c, CountReaped(s))
  {
    hide Sound, NoDuplicates;
    CountersAreFree(c, s, CountReaped(s));
  }

  // Pruning may only drop what is past the grace period.
  lemma PruneKeeps(c: Config, s: State, upTo: int)
    requires WellFormed(c, s) && upTo <= s.now - Grace(c)
    ensures WellFormed(c, Pruned(s, upTo))
  {
    hide Sound;
    var t := Pruned(s, upTo);
    forall x
      ensures Sound(c, t, x)
    {
      assert Sound(c, s, x);
      PrunedSound(c, s, upTo, x);
    }
  }

  lemma PrunedSound(c: Config, s: State, upTo: int, x: string)
    requires Sound(c, s, x) && upTo <= s.now - Grace(c)
    ensures Sound(c, Pruned(s, upTo), x)
  {
  }

  lemma ReviveOthers(c: Config, s: State, id: string)
    requires id in s.jobs && s.jobs[id].status == Dead
    ensures Elsewhere(s, Requeued(s, id).0, id)
  {
  }

  lemma ReviveSound(c: Config, s: State, id: string)
    requires Sound(c, s, id) && id in s.jobs && s.jobs[id].status == Dead
    ensures Sound(c, Requeued(s, id).0, id)
  {
  }

  lemma ReviveCounts(c: Config, s: State, id: string)
    requires Sound(c, s, id) && id in s.jobs && s.jobs[id].status == Dead && Balanced(s) && NoDuplicates(s.pending)
    ensures Counted(s, Requeued(s, id).0)
  {
    hide NoDuplicates;
    SizeOf(s.dead, id, 0);
    DistinctCons(id, s.pending);
  }

  lemma ReviveKeeps(c: Config, s: State, id: string)
    requires WellFormed(c, s) && id in s.jobs && s.jobs[id].status == Dead
    ensures WellFormed(c, Requeued(s, id).0)
  {
    hide Sound, Elsewhere, NoDuplicates, Balanced, Counted, Requeued;
    assert Sound(c, s, id);
    ReviveOthers(c, s, id);
    ReviveSound(c, s, id);
    ReviveCounts(c, s, id);
    NewStateIsWellFormed(c, s, Requeued(s, id).0, id);
  }

  lemma RequeueKeeps(c: Config, s: State, id: string)
    requires WellFormed(c, s)
    ensures WellFormed(c, Requeued(s, id).0)
  {
    if id in s.jobs && s.jobs[id].status == Dead {
      ReviveKeeps(c, s, id);
    }
  }

  lemma TickedSound(c: Config, s: State, to: int, x: string)
    requires Sound(c, s, x) && s.now <= to
    ensures Sound(c, s.(now := to), x)
  {
  }

  lemma TickKeeps(c: Config, s: State, to: int)
    requires WellFormed(c, s) && s.now <= to
    ensures WellFormed(c, s.(now := to))
  {
    hide Sound;
    forall x
      ensures Sound(c, s.(now := to), x)
    {
      assert Sound(c, s, x);
      TickedSound(c, s, to, x);
    }
  }

  lemma ExpireOthers(c: Config, s: State, id: string)
    requires Enabled(c, s, Command.Expire(id))
    ensures Elsewhere(s, Expired(s, id), id)
  {
  }

  lemma ExpireSound(c: Config, s: State, id: string)
    requires Sound(c, s, id) && Enabled(c, s, Command.Expire(id))
    ensures Sound(c, Expired(s, id), id)
  {
  }

  lemma ExpireCounts(c: Config, s: State, id: string)
    requires Sound(c, s, id) && Enabled(c, s, Command.Expire(id)) && Balanced(s) && NoDuplicates(s.pending)
    ensures Counted(s, Expired(s, id))
  {
    hide NoDuplicates;
  }

  lemma ExpireKeeps(c: Config, s: State, id: string)
    requires WellFormed(c, s) && Enabled(c, s, Command.Expire(id))
    ensures WellFormed(c, Expired(s, id))
  {
    hide Sound, Elsewhere, NoDuplicates, Balanced, Counted, Expired;
    assert Sound(c, s, id);
    ExpireOthers(c, s, id);
    ExpireSound(c, s, id);
    ExpireCounts(c, s, id);
    NewStateIsWellFormed(c, s, Expired(s, id), id);
  }

  /* -------- whole scripts -------- */

  lemma {:induction false} PromoteKeeps(c: Config, s: State, due: seq<string>, mark: bool)
    requires WellFormed(c, s) && NoDuplicates(due)
    requires forall id | id in due :: id in s.scheduled
    ensures var t := Promoted(s, due, mark);
            && WellFormed(c, t) && t.now == s.now
            && t.jobs.Keys == s.jobs.Keys
            && (forall x :: x in t.scheduled <==> x in s.scheduled && x !in due)
            && (forall x :: x in t.pending <==> x in s.pending || x in due)
  {
    if due != [] {
      hide WellFormed, NoDuplicates, PromotedOne;
      var n := |due| - 1;
      assert due == due[..n] + [due[n]];
      DistinctSnoc(due[..n], due[n]);
      PromoteKeeps(c, s, due[..n], mark);
      var earlier := Promoted(s, due[..n], mark);
      PromoteOneKeeps(c, earlier, due[n], mark);
      PromoteOneMoves(earlier, due[n], mark);
      assert forall x :: x in due <==> x in due[..n] || x == due[n];
    }
  }

  lemma PromoteOneMoves(s: State, id: string, mark: bool)
    ensures var t := PromotedOne(s, id, mark);
            && t.now == s.now
            && t.jobs.Keys == s.jobs.Keys
            && (forall x :: x in t.scheduled <==> x in s.scheduled && x != id)
            && (forall x :: x in t.pending <==> x in s.pending || x == id)
  {
  }

  lemma {:induction false} ReapKeeps(c: Config, s: State, expired: seq<string>)
    requires WellFormed(c, s) && NoDuplicates(expired)
    requires forall id | id in expired :: id in s.processing
    ensures var t := Reaped(c, s, expired).0;
            WellFormed(c, t) && forall x :: x in t.processing <==> x in s.processing && x !in expired
  {
    if expired != [] {
      var n := |expired| - 1;
      assert expired == expired[..n] + [expired[n]];
      DistinctSnoc(expired[..n], expired[n]);
      hide WellFormed, NoDuplicates;
      ReapKeeps(c, s, expired[..n]);
      ReapOneKeeps(c, Reaped(c, s, expired[..n]).0, expired[n]);
    }
  }

  lemma ClaimKeeps(c: Config, s: State, worker: string, claimId: string, lease: int, due: seq<string>)
    requires WellFormed(c, s) && NoDuplicates(due)
    requires forall id | id in due :: id in s.scheduled
    ensures WellFormed(c, Claimed(s, worker, claimId, lease, due).0)
  {
    hide WellFormed, NoDuplicates, Leased, Promoted;
    PromoteKeeps(c, s, due, false);
    var ready := Promoted(s, due, false);
    if ready.pending != [] {
      PopKeeps(c, ready, worker, claimId, lease);
    }
  }

  lemma AckKeeps(c: Config, s: State, id: string, worker: string, claimId: string, result: Option<string>)
    requires WellFormed(c, s)
    ensures WellFormed(c, Acked(c, s, id, worker, claimId, result).0)
  {
    hide Sound, NoDuplicates, Completed, Deleted, Pruned;
    if OwnerCheck(s, id, worker, claimId) != OK {
      CountersAreFree(c, s, Acked(c, s, id, worker, claimId, result).0);
    } else if c.keep > 0 {
      CompleteKeeps(c, s, id, result);
      assert Completed(s, id, result).now == s.now by { CompletedNow(s, id, result); }
      PruneKeeps(c, Completed(s, id, result), s.now - c.keep);
    } else {
      DeleteKeeps(c, s, id);
    }
  }

  lemma CompletedNow(s: State, id: string, result: Option<string>)
    requires id in s.jobs
    ensures Completed(s, id, result).now == s.now
  {
  }

  lemma FailKeeps(c: Config, s: State, id: string, worker: string, claimId: string,
                  reason: string, retryable: bool, jitter: nat)
    requires WellFormed(c, s)
    ensures WellFormed(c, Failed(c, s, id, worker, claimId, reason, retryable, jitter).0)
  {
    hide Sound, NoDuplicates, Buried, Rescheduled, RecordError, Backoff;
    if OwnerCheck(s, id, worker, claimId) != OK {
      CountersAreFree(c, s, Failed(c, s, id, worker, claimId, reason, retryable, jitter).0);
    } else if !retryable || s.jobs[id].attempts >= s.jobs[id].maxAttempts {
      BuryKeeps(c, s, id, reason, worker);
    } else {
      RescheduleKeeps(c, s, id, reason, worker, Backoff(c, s.jobs[id].attempts, jitter));
    }
  }

  lemma HeartbeatKeeps(c: Config, s: State, id: string, worker: string, claimId: string, lease: int)
    requires WellFormed(c, s)
    ensures WellFormed(c, Renewed(s, id, worker, claimId, lease).0)
  {
    if OwnerCheck(s, id, worker, claimId) == OK {
      RenewKeeps(c, s, id, worker, claimId, lease);
    } else {
      hide Sound, NoDuplicates;
      CountersAreFree(c, s, Renewed(s, id, worker, claimId, lease).0);
    }
  }

  lemma StepKeeps(c: Config, s: State, command: Command)
    requires WellFormed(c, s) && Enabled(c, s, command)
    ensures WellFormed(c, Next(c, s, command))
  {
    hide WellFormed, Enqueued, Claimed, Acked, Failed, Renewed, Promoted, Reaped, Requeued, Pruned, Expired,
         NoDuplicates;
    match command
    case Tick(to) => TickKeeps(c, s, to);
    case Enqueue(id, payload, maxAttempts) => EnqueueKeeps(c, s, id, payload, maxAttempts);
    case Claim(worker, claimId, lease, _, due) => ClaimKeeps(c, s, worker, claimId, lease, due);
    case Ack(id, worker, claimId, result) => AckKeeps(c, s, id, worker, claimId, result);
    case Fail(id, worker, claimId, reason, retryable, jitter) =>
      FailKeeps(c, s, id, worker, claimId, reason, retryable, jitter);
    case Heartbeat(id, worker, claimId, lease) => HeartbeatKeeps(c, s, id, worker, claimId, lease);
    case PromoteDue(_, due) => PromoteKeeps(c, s, due, true);
    case Reap(_, expired) => ReapKeeps(c, s, expired);
    case RequeueDead(id) => RequeueKeeps(c, s, id);
    case Audit => if c.keep > 0 { PruneKeeps(c, s, s.now - Grace(c)); }
    case Expire(id) => ExpireKeeps(c, s, id);
  }

  lemma EmptyIsWellFormed(c: Config, start: int)
    ensures WellFormed(c, Empty(start))
  {
    forall x
      ensures Sound(c, Empty(start), x)
    {
      assert x !in Empty(start).jobs;
    }
  }

  /** Over every run: each live job is in exactly one place, its place is its status (but for a
      retry promoted by a claim), nothing is orphaned, no job is tried past its budget, every dead
      job is explained, and everything admitted is accounted for. */
  lemma {:induction false} EveryRunIsWellFormed(c: Config, start: int, commands: seq<Command>)
    requires Legal(c, start, commands)
    ensures WellFormed(c, Run(c, start, commands))
  {
    hide WellFormed, Next, Enabled;
    if commands == [] {
      EmptyIsWellFormed(c, start);
    } else {
      var n := |commands| - 1;
      EveryRunIsWellFormed(c, start, commands[..n]);
      StepKeeps(c, Run(c, start, commands[..n]), commands[n]);
    }
  }
}
