/** Several workers, one queue and one ledger, interleaved in any order, with a crash allowed
    between any two steps: sentinel_os/sentinel_worker.py over sentinel_os/queue_schema.py and
    sentinel_os/governance_harness.py. */
module Worker {
  import opened Wrappers
  import opened Queue
  import opened QueueRuns
  import opened QueueLaws
  import opened Harness

  // Where a worker is with the job it claimed. In Checked the pre-check has found no row.
  datatype Phase =
    | Claimed(job: ClaimedJob)
    | Checked(job: ClaimedJob, episode: Episode)
    | Answered(job: ClaimedJob, result: CallResult)

  datatype System = System(
    queue: State,
    ledger: seq<Row>,
    phases: map<string, Phase>,         // by worker; an idle or crashed worker has none
    issued: set<string>,                // claim ids handed out, which are random and not repeated
    blocked: set<Episode>)              // episodes for which an attempt returned a lens block

  // How payloads parse, and the two configurations.
  datatype Setup = Setup(config: Config, harness: Harness, parse: string -> Reading)

  // Any step the queue takes without this model's workers claiming or settling: enqueues, the
  // clock, reaping, heartbeats, promotion, audits, expiry, an operator's requeue.
  datatype Step =
    | QueueStep(command: Command)
    | ClaimStep(worker: string, claimId: string, lease: int, batch: int, due: seq<string>)
    | CheckStep(worker: string, lookupRaises: Option<string>)
    | ProcessStep(worker: string, world: World)
    | SettleStep(worker: string, jitter: nat)
    | CrashStep(worker: string)

  function Start(now: int): System {
    System(Empty(now), [], map[], {}, {})
  }

  ghost predicate CanStep(u: Setup, s: System, step: Step) {
    match step
    case QueueStep(command) =>
      !command.Claim? && !command.Ack? && !command.Fail? && Enabled(u.config, s.queue, command)
    case ClaimStep(worker, claimId, lease, batch, due) =>
      worker !in s.phases && claimId !in s.issued && IsRange(s.queue.scheduled, s.queue.now, batch, due)
    case CheckStep(worker, _) => worker in s.phases && s.phases[worker].Claimed?
    case ProcessStep(worker, _) => worker in s.phases && s.phases[worker].Checked?
    case SettleStep(worker, _) => worker in s.phases && s.phases[worker].Answered?
    case CrashStep(_) => true
  }

  function AfterClaim(u: Setup, s: System, worker: string, claimId: string, lease: int, due: seq<string>): System {
    var (queue, claimed) := Queue.Claimed(s.queue, worker, claimId, lease, due);
    var issued := s.issued + {claimId};
    if claimed.None? || claimed.value !in queue.jobs then s.(queue := queue, issued := issued)
    else
      var job := ClaimedJob(claimed.value, claimId, queue.jobs[claimed.value].payload);
      s.(queue := queue, issued := issued, phases := s.phases[worker := Phase.Claimed(job)])
  }

  function AfterCheck(u: Setup, s: System, worker: string, lookupRaises: Option<string>): System
    requires worker in s.phases && s.phases[worker].Claimed?
  {
    var job := s.phases[worker].job;
    var reading := u.parse(job.payload);
    var early := Prechecked(u.harness, s.ledger, reading, lookupRaises);
    if reading.NotADict? then s.(phases := s.phases - {worker}) // the worker's loop ends
    else
      var phase := if early.Some? then Answered(job, early.value) else Checked(job, reading.episode);
      s.(phases := s.phases[worker := phase])
  }

  function AfterProcess(u: Setup, s: System, worker: string, w: World): System
    requires worker in s.phases && s.phases[worker].Checked?
  {
    var (job, e) := (s.phases[worker].job, s.phases[worker].episode);
    var (ledger, judgement) := Processed(u.harness, s.ledger, e, w);
    s.(ledger := ledger,
       phases := s.phases[worker := Answered(job, ResultOf(judgement))],
       blocked := if w.judging == LensBlocked then s.blocked + {e} else s.blocked)
  }

  function AfterSettle(u: Setup, s: System, worker: string, jitter: nat): System
    requires worker in s.phases && s.phases[worker].Answered?
  {
    var Answered(job, result) := s.phases[worker];
    s.(queue := Settled(u.config, s.queue, job.id, worker, job.claimId, result, jitter).0,
       phases := s.phases - {worker})
  }

  function After(u: Setup, s: System, step: Step): System
    requires CanStep(u, s, step)
  {
    match step
    case QueueStep(command) => s.(queue := Next(u.config, s.queue, command))
    case ClaimStep(worker, claimId, lease, _, due) => AfterClaim(u, s, worker, claimId, lease, due)
    case CheckStep(worker, lookupRaises) => AfterCheck(u, s, worker, lookupRaises)
    case ProcessStep(worker, w) => AfterProcess(u, s, worker, w)
    case SettleStep(worker, jitter) => AfterSettle(u, s, worker, jitter)
    case CrashStep(worker) => s.(phases := s.phases - {worker})
  }

  ghost predicate IsRun(u: Setup, start: int, trace: seq<System>, steps: seq<Step>) {
    && |trace| == |steps| + 1
    && trace[0] == Start(start)
    && forall i | 0 <= i < |steps| :: CanStep(u, trace[i], steps[i]) && trace[i + 1] == After(u, trace[i], steps[i])
  }

  /* -------- what the queue's steps leave alone -------- */

  // A job keeps its payload; it becomes done only if it was; its claim id is old or among the new.
  ghost predicate Kept(s: State, t: State, id: string, claims: set<string>) {
    id in t.jobs ==>
      var now := t.jobs[id];
      if id in s.jobs then
        var was := s.jobs[id];
        && now.payload == was.payload
        && (now.status == Done ==> was.status == Done)
        && (now.lease.Some? ==> now.lease.value.claimId in claims
                                || (was.lease.Some? && was.lease.value.claimId == now.lease.value.claimId))
      else now.status != Done && (now.lease.Some? ==> now.lease.value.claimId in claims)
  }

  ghost predicate AllKept(s: State, t: State, claims: set<string>) {
    forall id :: Kept(s, t, id, claims)
  }

  lemma KeptTwice(s: State, m: State, t: State, one: set<string>, two: set<string>)
    requires AllKept(s, m, one) && AllKept(m, t, two) && one <= two && s.jobs.Keys <= m.jobs.Keys
    ensures AllKept(s, t, two)
  {
    forall id
      ensures Kept(s, t, id, two)
    {
      assert Kept(s, m, id, one) && Kept(m, t, id, two);
    }
  }

  lemma ReapedOneJob(c: Config, s: State, id: string)
    requires id in s.jobs
    ensures Kept(s, ReapedOne(c, s, id).0, id, {})
  {
    hide Trail;
  }

  lemma ReapedOneIsKept(c: Config, s: State, id: string)
    ensures var t := ReapedOne(c, s, id).0; AllKept(s, t, {}) && t.jobs.Keys == s.jobs.Keys
  {
    if id in s.jobs {
      ReapedElsewhere(c, s, id);
      ReapedOneJob(c, s, id);
      hide ReapedOne;
    }
  }

  lemma {:induction false} ReapedIsKept(c: Config, s: State, expired: seq<string>)
    ensures var t := Reaped(c, s, expired).0; AllKept(s, t, {}) && t.jobs.Keys == s.jobs.Keys
  {
    if expired != [] {
      var n := |expired| - 1;
      ReapedIsKept(c, s, expired[..n]);
      ReapedOneIsKept(c, Reaped(c, s, expired[..n]).0, expired[n]);
      hide ReapedOne, AllKept;
      KeptTwice(s, Reaped(c, s, expired[..n]).0, Reaped(c, s, expired).0, {}, {});
    }
  }

  lemma QuarantineIsKept(s: State, id: string)
    requires s.pending != []
    ensures var t := Quarantined(Popped(s), id); AllKept(s, t, {}) && t.jobs.Keys == s.jobs.Keys
  {
  }

  lemma LeaseIsKept(s: State, id: string, worker: string, claimId: string, lease: int)
    requires s.pending != [] && id in s.jobs
    ensures var t := Leased(Popped(s), id, worker, claimId, lease); AllKept(s, t, {claimId}) && id in t.jobs
  {
  }

  lemma NothingIsKept(s: State, claimId: string)
    ensures AllKept(s, s, {claimId})
  {
  }

  lemma {:induction false} TakenIsKept(s: State, worker: string, claimId: string, lease: int, scans: nat)
    ensures AllKept(s, Taken(s, worker, claimId, lease, scans).0, {claimId})
    ensures var (t, claimed) := Taken(s, worker, claimId, lease, scans);
            claimed.Some? ==> claimed.value in t.jobs
    decreases scans
  {
    if scans != 0 && s.pending != [] {
      var last := s.pending[|s.pending| - 1];
      if last !in s.jobs {
        TakenIsKept(Quarantined(Popped(s), last), worker, claimId, lease, scans - 1);
        QuarantineIsKept(s, last);
        hide AllKept, Quarantined, Popped;
        KeptTwice(s, Quarantined(Popped(s), last), Taken(s, worker, claimId, lease, scans).0, {}, {claimId});
      } else {
        LeaseIsKept(s, last, worker, claimId, lease);
        hide AllKept, Leased, Popped;
      }
    } else {
      NothingIsKept(s, claimId);
    }
  }

  lemma PromotedIsKept(s: State, due: seq<string>, mark: bool)
    ensures AllKept(s, Promoted(s, due, mark), {}) && Promoted(s, due, mark).jobs.Keys == s.jobs.Keys
  {
    hide Promoted;
    PromotedSame(s, due, mark);
  }

  lemma ClaimIsKept(s: State, worker: string, claimId: string, lease: int, due: seq<string>)
    ensures var (t, claimed) := Queue.Claimed(s, worker, claimId, lease, due);
            AllKept(s, t, {claimId}) && (claimed.Some? ==> claimed.value in t.jobs)
  {
    hide AllKept, Taken, Promoted;
    var ready := Promoted(s, due, false);
    PromotedIsKept(s, due, false);
    TakenIsKept(ready, worker, claimId, lease, MAX_SCAN);
    KeptTwice(s, ready, Taken(ready, worker, claimId, lease, MAX_SCAN).0, {}, {claimId});
  }

  lemma FailIsKept(c: Config, s: State, id: string, worker: string, claimId: string, reason: string, retryable: bool,
                   jitter: nat)
    ensures AllKept(s, Failed(c, s, id, worker, claimId, reason, retryable, jitter).0, {})
  {
    hide Trail, Backoff;
  }

  lemma EnqueueIsKept(s: State, id: string, payload: string, maxAttempts: int)
    ensures AllKept(s, Enqueued(s, id, payload, maxAttempts).0, {})
  {
  }

  lemma HeartbeatIsKept(s: State, id: string, worker: string, claimId: string, lease: int)
    ensures AllKept(s, Renewed(s, id, worker, claimId, lease).0, {})
  {
  }

  lemma RequeueIsKept(s: State, id: string)
    ensures AllKept(s, Requeued(s, id).0, {})
  {
  }

  lemma QueueStepIsKept(c: Config, s: State, command: Command)
    requires !command.Claim? && !command.Ack? && !command.Fail?
    ensures AllKept(s, Next(c, s, command), {})
  {
    hide Reaped, Promoted, Enqueued, Renewed, Requeued;
    match command
    case Enqueue(id, payload, maxAttempts) => EnqueueIsKept(s, id, payload, maxAttempts);
    case Heartbeat(id, worker, claimId, lease) => HeartbeatIsKept(s, id, worker, claimId, lease);
    case PromoteDue(_, due) => PromotedIsKept(s, due, true);
    case Reap(_, expired) => ReapedIsKept(c, s, expired);
    case RequeueDead(id) => RequeueIsKept(s, id);
    case _ =>
  }

  /* -------- why a job may be done -------- */

  /** The payload's episode has a row, or is below the trigger, or an attempt on it returned a lens
      block (or the harness has no ledger to write to, and says so in its result). */
  ghost predicate Vouched(u: Setup, s: System, payload: string) {
    u.parse(payload).Reads? &&
    var e := u.parse(payload).episode;
    HasRow(s.ledger, e.id) || e.issues < u.harness.trigger || e in s.blocked || !u.harness.ledgerBound
  }

  ghost predicate AnswerIsVouched(u: Setup, s: System, phase: Phase) {
    match phase
    case Claimed(_) => true
    case Checked(job, e) => u.parse(job.payload) == Reads(e)
    case Answered(job, result) => Acks(result) ==> Vouched(u, s, job.payload)
  }

  // While the fence matches, the worker holds the payload the queue holds.
  ghost predicate HoldsItsJob(s: System, worker: string, job: ClaimedJob) {
    && job.claimId in s.issued
    && (Holds(s.queue, job.id, worker, job.claimId) ==>
          job.id in s.queue.jobs && s.queue.jobs[job.id].payload == job.payload)
  }

  ghost predicate JobIsVouched(u: Setup, s: System, id: string) {
    id in s.queue.jobs ==>
      && (s.queue.jobs[id].status == Done ==> Vouched(u, s, s.queue.jobs[id].payload))
      && (s.queue.jobs[id].lease.Some? ==> s.queue.jobs[id].lease.value.claimId in s.issued)
  }

  ghost predicate Honest(u: Setup, s: System) {
    && (forall w | w in s.phases :: AnswerIsVouched(u, s, s.phases[w]) && HoldsItsJob(s, w, s.phases[w].job))
    && (forall id :: JobIsVouched(u, s, id))
  }

  // Rows and lens blocks are never taken back.
  ghost predicate Grows(s: System, t: System) {
    s.ledger <= t.ledger && s.blocked <= t.blocked && s.issued <= t.issued
  }

  lemma VouchedStays(u: Setup, s: System, t: System, payload: string)
    requires Vouched(u, s, payload) && Grows(s, t)
    ensures Vouched(u, t, payload)
  {
    var e := u.parse(payload).episode;
    if HasRow(s.ledger, e.id) {
      var row :| row in s.ledger && row.episode == e.id;
      assert row in t.ledger;
    }
  }

  lemma AnswerStays(u: Setup, s: System, t: System, phase: Phase)
    requires AnswerIsVouched(u, s, phase) && Grows(s, t)
    ensures AnswerIsVouched(u, t, phase)
  {
    hide Vouched;
    if phase.Answered? && Acks(phase.result) {
      VouchedStays(u, s, t, phase.job.payload);
    }
  }

  ghost predicate NoNewHolder(s: State, t: State) {
    forall id, w, k :: Holds(t, id, w, k) ==> Holds(s, id, w, k)
  }

  // The queue moved, and gave no one a new claim.
  lemma QueueMoved(u: Setup, s: System, t: System)
    requires Honest(u, s) && t == s.(queue := t.queue, phases := t.phases) && t.phases.Items <= s.phases.Items
    requires AllKept(s.queue, t.queue, {}) && NoNewHolder(s.queue, t.queue)
    ensures Honest(u, t)
  {
    hide Vouched, Holds;
    forall w | w in t.phases
      ensures AnswerIsVouched(u, t, t.phases[w]) && HoldsItsJob(t, w, t.phases[w].job)
    {
      assert (w, t.phases[w]) in t.phases.Items;
      assert w in s.phases && s.phases[w] == t.phases[w];
      AnswerStays(u, s, t, t.phases[w]);
      assert Kept(s.queue, t.queue, t.phases[w].job.id, {});
      HolderIsLeased(s.queue, t.phases[w].job.id, w, t.phases[w].job.claimId);
      HolderIsLeased(t.queue, t.phases[w].job.id, w, t.phases[w].job.claimId);
    }
    forall id
      ensures JobIsVouched(u, t, id)
    {
      assert JobIsVouched(u, s, id) && Kept(s.queue, t.queue, id, {});
      if id in s.queue.jobs && s.queue.jobs[id].status == Done {
        VouchedStays(u, s, t, s.queue.jobs[id].payload);
      }
    }
  }

  lemma HolderIsLeased(s: State, id: string, worker: string, claimId: string)
    ensures Holds(s, id, worker, claimId) ==>
              id in s.jobs && s.jobs[id].lease.Some? && s.jobs[id].lease.value.claimId == claimId
  {
  }

  lemma QueueStepHonest(u: Setup, s: System, command: Command)
    requires Honest(u, s) && CanStep(u, s, QueueStep(command))
    ensures Honest(u, After(u, s, QueueStep(command)))
  {
    hide Honest, Next, AllKept, Holds;
    QueueStepIsKept(u.config, s.queue, command);
    forall id, w, k | Holds(Next(u.config, s.queue, command), id, w, k)
      ensures Holds(s.queue, id, w, k)
    {
      StepHolds(u.config, s.queue, command, id, w, k);
    }
    QueueMoved(u, s, After(u, s, QueueStep(command)));
  }

  lemma FailHonest(u: Setup, s: System, worker: string, jitter: nat)
    requires Honest(u, s) && CanStep(u, s, SettleStep(worker, jitter)) && !Acks(s.phases[worker].result)
    ensures Honest(u, AfterSettle(u, s, worker, jitter))
  {
    hide Honest, AllKept, Holds, Failed;
    var Answered(job, result) := s.phases[worker];
    var reason := FailureReason(result);
    var t := AfterSettle(u, s, worker, jitter);
    FailIsKept(u.config, s.queue, job.id, worker, job.claimId, reason, RetryableByDefault(reason), jitter);
    forall id, w, k | Holds(t.queue, id, w, k)
      ensures Holds(s.queue, id, w, k)
    {
      FailedHolds(u.config, s.queue, job.id, worker, job.claimId, reason, RetryableByDefault(reason), jitter, id, w, k);
    }
    QueueMoved(u, s, t);
  }

  lemma CrashHonest(u: Setup, s: System, worker: string)
    requires Honest(u, s)
    ensures Honest(u, s.(phases := s.phases - {worker}))
  {
    hide Honest, Holds;
    QueueMoved(u, s, s.(phases := s.phases - {worker}));
  }

  // An ack finishes at most the acked job, and only under its fence.
  lemma AckIsKept(c: Config, s: State, id: string, worker: string, claimId: string, x: string)
    requires x != id || !Holds(s, id, worker, claimId)
    ensures Kept(s, Acked(c, s, id, worker, claimId, None).0, x, {})
  {
  }

  lemma AckedJob(c: Config, s: State, id: string, worker: string, claimId: string)
    requires id in s.jobs && Holds(s, id, worker, claimId)
    ensures var t := Acked(c, s, id, worker, claimId, None).0;
            id in t.jobs ==> t.jobs[id].payload == s.jobs[id].payload && t.jobs[id].lease == None
  {
  }

  lemma AckHonest(u: Setup, s: System, worker: string, jitter: nat)
    requires Honest(u, s) && CanStep(u, s, SettleStep(worker, jitter)) && Acks(s.phases[worker].result)
    ensures Honest(u, AfterSettle(u, s, worker, jitter))
  {
    hide Holds, Acked, Vouched;
    var Answered(job, result) := s.phases[worker];
    var t := AfterSettle(u, s, worker, jitter);
    assert AnswerIsVouched(u, s, s.phases[worker]) && HoldsItsJob(s, worker, job);
    forall w | w in t.phases
      ensures AnswerIsVouched(u, t, t.phases[w]) && HoldsItsJob(t, w, t.phases[w].job)
    {
      AnswerStays(u, s, t, t.phases[w]);
      AckLeavesHolder(u.config, s, t, job, worker, w, t.phases[w].job);
    }
    forall id
      ensures JobIsVouched(u, t, id)
    {
      assert JobIsVouched(u, s, id);
      AckVouches(u, s, t, job, worker, id);
    }
  }

  lemma AckLeavesHolder(c: Config, s: System, t: System, job: ClaimedJob, worker: string, w: string, mine: ClaimedJob)
    requires HoldsItsJob(s, w, mine) && t.issued == s.issued
    requires t.queue == Acked(c, s.queue, job.id, worker, job.claimId, None).0
    ensures HoldsItsJob(t, w, mine)
  {
    hide Holds, Acked;
    if Holds(t.queue, mine.id, w, mine.claimId) {
      AckedHolds(c, s.queue, job.id, worker, job.claimId, None, mine.id, w, mine.claimId);
      HolderIsLeased(t.queue, mine.id, w, mine.claimId);
      if mine.id == job.id && Holds(s.queue, job.id, worker, job.claimId) {
        HolderIsLeased(s.queue, job.id, worker, job.claimId);
        AckedJob(c, s.queue, job.id, worker, job.claimId);
      } else {
        AckIsKept(c, s.queue, job.id, worker, job.claimId, mine.id);
      }
    }
  }

  lemma AckVouches(u: Setup, s: System, t: System, job: ClaimedJob, worker: string, id: string)
    requires JobIsVouched(u, s, id) && HoldsItsJob(s, worker, job) && Vouched(u, s, job.payload)
    requires Grows(s, t) && t.queue == Acked(u.config, s.queue, job.id, worker, job.claimId, None).0
    ensures JobIsVouched(u, t, id)
  {
    hide Holds, Acked, Vouched;
    if id == job.id && Holds(s.queue, job.id, worker, job.claimId) {
      HolderIsLeased(s.queue, job.id, worker, job.claimId);
      AckedJob(u.config, s.queue, job.id, worker, job.claimId);
      VouchedStays(u, s, t, job.payload);
    } else {
      AckIsKept(u.config, s.queue, job.id, worker, job.claimId, id);
      if id in s.queue.jobs && s.queue.jobs[id].status == Done {
        VouchedStays(u, s, t, s.queue.jobs[id].payload);
      }
    }
  }

  lemma ClaimHonest(u: Setup, s: System, worker: string, claimId: string, lease: int, batch: int, due: seq<string>)
    requires Honest(u, s) && CanStep(u, s, ClaimStep(worker, claimId, lease, batch, due))
    ensures Honest(u, AfterClaim(u, s, worker, claimId, lease, due))
  {
    hide Holds, Queue.Claimed, Vouched, AllKept, IsRange;
    var t := AfterClaim(u, s, worker, claimId, lease, due);
    ClaimIsKept(s.queue, worker, claimId, lease, due);
    forall w | w in t.phases
      ensures AnswerIsVouched(u, t, t.phases[w]) && HoldsItsJob(t, w, t.phases[w].job)
    {
      if w in s.phases {
        AnswerStays(u, s, t, t.phases[w]);
        ClaimLeavesHolder(s, t, worker, claimId, lease, due, w, s.phases[w].job);
      }
    }
    forall id
      ensures JobIsVouched(u, t, id)
    {
      assert JobIsVouched(u, s, id);
      ClaimVouches(u, s, t, claimId, id);
    }
  }

  lemma ClaimLeavesHolder(s: System, t: System, worker: string, claimId: string, lease: int, due: seq<string>,
                          w: string, mine: ClaimedJob)
    requires HoldsItsJob(s, w, mine) && claimId !in s.issued && s.issued <= t.issued
    requires t.queue == Queue.Claimed(s.queue, worker, claimId, lease, due).0
    requires AllKept(s.queue, t.queue, {claimId})
    ensures HoldsItsJob(t, w, mine)
  {
    hide Holds, Queue.Claimed;
    if Holds(t.queue, mine.id, w, mine.claimId) {
      ClaimedHolds(s.queue, worker, claimId, lease, due, mine.id, w, mine.claimId);
      HolderIsLeased(t.queue, mine.id, w, mine.claimId);
      assert Kept(s.queue, t.queue, mine.id, {claimId});
    }
  }

  lemma ClaimVouches(u: Setup, s: System, t: System, claimId: string, id: string)
    requires JobIsVouched(u, s, id) && Grows(s, t) && claimId in t.issued
    requires AllKept(s.queue, t.queue, {claimId})
    ensures JobIsVouched(u, t, id)
  {
    hide Vouched;
    assert Kept(s.queue, t.queue, id, {claimId});
    if id in s.queue.jobs && s.queue.jobs[id].status == Done {
      VouchedStays(u, s, t, s.queue.jobs[id].payload);
    }
  }

  // Only one worker's phase moved, and the queue did not.
  lemma PhaseMoved(u: Setup, s: System, t: System, worker: string, phase: Phase)
    requires Honest(u, s) && worker in s.phases && phase.job == s.phases[worker].job
    requires Grows(s, t) && t.queue == s.queue && t.issued == s.issued && t.phases == s.phases[worker := phase]
    requires AnswerIsVouched(u, t, phase)
    ensures Honest(u, t)
  {
    hide Holds, Vouched;
    forall w | w in t.phases
      ensures AnswerIsVouched(u, t, t.phases[w]) && HoldsItsJob(t, w, t.phases[w].job)
    {
      if w != worker {
        AnswerStays(u, s, t, s.phases[w]);
      }
      assert HoldsItsJob(s, w, s.phases[w].job);
    }
    forall id
      ensures JobIsVouched(u, t, id)
    {
      assert JobIsVouched(u, s, id);
      if id in s.queue.jobs && s.queue.jobs[id].status == Done {
        VouchedStays(u, s, t, s.queue.jobs[id].payload);
      }
    }
  }

  lemma CheckHonest(u: Setup, s: System, worker: string, lookupRaises: Option<string>)
    requires Honest(u, s) && CanStep(u, s, CheckStep(worker, lookupRaises))
    ensures Honest(u, AfterCheck(u, s, worker, lookupRaises))
  {
    hide Honest, HasRow;
    var t := AfterCheck(u, s, worker, lookupRaises);
    if worker in t.phases {
      PhaseMoved(u, s, t, worker, t.phases[worker]);
    } else {
      CrashHonest(u, s, worker);
    }
  }

  lemma ProcessHonest(u: Setup, s: System, worker: string, w: World)
    requires Honest(u, s) && CanStep(u, s, ProcessStep(worker, w))
    ensures Honest(u, AfterProcess(u, s, worker, w))
  {
    hide HasRow;
    var t := AfterProcess(u, s, worker, w);
    var e := s.phases[worker].episode;
    assert AnswerIsVouched(u, s, s.phases[worker]);
    AppendsExactly(u.harness, s.ledger, e, w);
    assert Grows(s, t);
    if t.ledger != s.ledger {
      assert HasRow(t.ledger, e.id) by { LastRowIsThere(t.ledger, e.id); }
    }
    hide Honest;
    PhaseMoved(u, s, t, worker, t.phases[worker]);
  }

  lemma LastRowIsThere(ledger: seq<Row>, episode: string)
    requires ledger != [] && ledger[|ledger| - 1].episode == episode
    ensures HasRow(ledger, episode)
  {
    assert ledger[|ledger| - 1] in ledger;
  }

  lemma StepHonest(u: Setup, s: System, step: Step)
    requires Honest(u, s) && CanStep(u, s, step)
    ensures Honest(u, After(u, s, step))
  {
    hide Honest, AfterClaim, AfterCheck, AfterProcess, AfterSettle, Next;
    match step
    case QueueStep(command) => QueueStepHonest(u, s, command);
    case ClaimStep(worker, claimId, lease, batch, due) => ClaimHonest(u, s, worker, claimId, lease, batch, due);
    case CheckStep(worker, lookupRaises) => CheckHonest(u, s, worker, lookupRaises);
    case ProcessStep(worker, w) => ProcessHonest(u, s, worker, w);
    case SettleStep(worker, jitter) =>
      if Acks(s.phases[worker].result) {
        AckHonest(u, s, worker, jitter);
      } else {
        FailHonest(u, s, worker, jitter);
      }
    case CrashStep(worker) => CrashHonest(u, s, worker);
  }

  lemma {:induction false} RunsAreHonest(u: Setup, start: int, trace: seq<System>, steps: seq<Step>, i: nat)
    requires IsRun(u, start, trace, steps) && i < |trace|
    ensures Honest(u, trace[i])
  {
    if i > 0 {
      hide Honest, CanStep, After;
      RunsAreHonest(u, start, trace, steps, i - 1);
      StepHonest(u, trace[i - 1], steps[i - 1]);
    }
  }

  // The payload's episode has a row, or is below the trigger, or an attempt on it returned a lens block.
  ghost predicate Recorded(u: Setup, s: System, payload: string) {
    u.parse(payload).Reads? &&
    var e := u.parse(payload).episode;
    HasRow(s.ledger, e.id) || e.issues < u.harness.trigger || e in s.blocked
  }

  // Only settling under the fence finishes a job, and what it settles is vouched for.
  lemma FinishedIsVouched(u: Setup, s: System, step: Step, id: string)
    requires Honest(u, s) && CanStep(u, s, step)
    requires Unfinished(s.queue, id) && !Unfinished(After(u, s, step).queue, id)
    ensures Vouched(u, s, s.queue.jobs[id].payload)
  {
    hide Vouched, Next, Queue.Claimed, Failed, Acked, Holds, IsRange, Prechecked;
    match step
    case QueueStep(command) => OnlyAnAckFinishes(u.config, s.queue, command, id);
    case ClaimStep(worker, claimId, lease, _, due) => ClaimedUnfinished(s.queue, worker, claimId, lease, due, id);
    case SettleStep(worker, jitter) =>
      var Answered(job, result) := s.phases[worker];
      assert AnswerIsVouched(u, s, s.phases[worker]) && HoldsItsJob(s, worker, job);
      if !Acks(result) {
        var reason := FailureReason(result);
        FailedUnfinished(u.config, s.queue, job.id, worker, job.claimId, reason, RetryableByDefault(reason),
                         jitter, id);
      } else if job.id != id || !Holds(s.queue, id, worker, job.claimId) {
        AckedUnfinished(u.config, s.queue, job.id, worker, job.claimId, None, id);
      }
    case _ =>
  }

  /** Over every interleaving of workers, claims, crashes, lease expiry, reaping and redelivery: the
      moment a job is finished, whether its record is kept or deleted, its episode has a row in the
      ledger, or is below the trigger, or an attempt on it returned a lens block. */
  lemma FinishedMeansRecorded(u: Setup, start: int, trace: seq<System>, steps: seq<Step>, i: nat, id: string)
    requires IsRun(u, start, trace, steps) && i < |steps| && u.harness.ledgerBound
    requires Unfinished(trace[i].queue, id) && !Unfinished(trace[i + 1].queue, id)
    ensures Recorded(u, trace[i], trace[i].queue.jobs[id].payload)
  {
    assert CanStep(u, trace[i], steps[i]) && trace[i + 1] == After(u, trace[i], steps[i]);
    hide IsRun, CanStep, After, Honest, Unfinished;
    RunsAreHonest(u, start, trace, steps, i);
    FinishedIsVouched(u, trace[i], steps[i], id);
  }

  /** And a job whose record is kept as done has that behind it in every later state. */
  lemma DoneMeansRecorded(u: Setup, start: int, trace: seq<System>, steps: seq<Step>, i: nat, id: string)
    requires IsRun(u, start, trace, steps) && i < |trace| && u.harness.ledgerBound
    requires IsFinished(trace[i].queue, id)
    ensures Recorded(u, trace[i], trace[i].queue.jobs[id].payload)
  {
    hide IsRun;
    RunsAreHonest(u, start, trace, steps, i);
    assert JobIsVouched(u, trace[i], id);
  }
}
