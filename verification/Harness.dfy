/** One unit of governed work: `GovernanceHarness.process` (sentinel_os/governance_harness.py), the
    adapter that runs it for a queued job and the worker that settles the job
    (sentinel_os/sentinel_worker.py). */
module Harness {
  import opened Json
  import opened Wrappers
  import opened Queue
  import opened QueueStore

  // What a job payload parses to: the episode's id and its issue count.
  datatype Episode = Episode(id: string, issues: int)

  // Any JSON value can be queued: a dict that reads as an episode, one that does not, or no dict.
  datatype Reading = NotADict | Unreadable | Reads(episode: Episode)

  // A governance_decision row of the ledger.
  datatype Row = Row(episode: string, approved: bool)

  // Judging raises, or returns, or a live lens blocks.
  datatype Judging = Judged | LensBlocked | JudgingRaised

  // The one append: it commits, or raises without committing (a boundary rejection among the
  // causes), or commits and raises all the same.
  datatype Fate = Commits | RaisesBefore | RaisesAfter

  datatype Judgement = Judgement(
    required: bool,
    governed: bool,
    approved: bool,
    blocked: bool,
    recorded: Option<bool>)   // absent when there was no decision to record

  datatype Harness = Harness(trigger: int, ledgerBound: bool)

  // The world's answers during one call: the decider's "safe" is absent when it raised or did not
  // answer with a dict, and null when the dict has no such key.
  datatype World = World(judging: Judging, safe: Option<Value>, fate: Fate)

  // safe is True
  predicate Approved(safe: Option<Value>) {
    safe == Some(Bool(true))
  }

  // bool(decision.get("safe")), with False standing in for a decider that raised
  predicate RecordedAsApproved(safe: Option<Value>) {
    safe.Some? && Truthy(safe.value)
  }

  const LENS_BLOCK := Judgement(true, true, false, true, None)

  // process: None when it raises.
  function Processed(h: Harness, ledger: seq<Row>, e: Episode, w: World): (seq<Row>, Option<Judgement>) {
    match w.judging
    case JudgingRaised => (ledger, None)
    case LensBlocked => (ledger, Some(LENS_BLOCK))
    case Judged =>
      if e.issues < h.trigger then (ledger, Some(Judgement(false, false, false, false, None)))
      else
        var approved := Approved(w.safe);
        if !h.ledgerBound then (ledger, Some(Judgement(true, true, approved, !approved, Some(false))))
        else
          var longer := ledger + [Row(e.id, RecordedAsApproved(w.safe))];
          match w.fate
          case Commits => (longer, Some(Judgement(true, true, approved, !approved, Some(true))))
          case RaisesBefore => (ledger, None)
          case RaisesAfter => (longer, None)
  }

  class GovernanceHarness {
    const config: Harness
    var ledger: seq<Row>

    constructor (config: Harness)
      ensures this.config == config && ledger == []
    {
      this.config := config;
      ledger := [];
    }

    method Process(e: Episode, w: World) returns (judgement: Option<Judgement>)
      modifies this`ledger
      ensures (ledger, judgement) == Processed(config, old(ledger), e, w)
    {
      if w.judging == JudgingRaised {
        return None;
      }
      if w.judging == LensBlocked {
        return Some(LENS_BLOCK);
      }
      var result := Judgement(e.issues >= config.trigger, false, false, false, None);
      if !result.required {
        return Some(result);
      }
      var approved := Approved(w.safe);
      result := result.(governed := true, approved := approved, blocked := !approved);
      if !config.ledgerBound {
        return Some(result.(recorded := Some(false)));
      }
      if w.fate != RaisesBefore {
        ledger := ledger + [Row(e.id, RecordedAsApproved(w.safe))];
      }
      if w.fate != Commits {
        return None;
      }
      return Some(result.(recorded := Some(true)));
    }
  }

  /** The ledger grows exactly when a governed decision of a bound harness commits; nothing else
      this call does is ever written. */
  lemma AppendsExactly(h: Harness, ledger: seq<Row>, e: Episode, w: World)
    ensures var (after, judgement) := Processed(h, ledger, e, w);
            && (after == ledger
                || (|after| == |ledger| + 1 && after[..|ledger|] == ledger && after[|ledger|].episode == e.id))
            && (after != ledger <==>
                  w.judging == Judged && e.issues >= h.trigger && h.ledgerBound && w.fate != RaisesBefore)
            && (judgement.Some? && judgement.value.recorded == Some(true) ==> after != ledger)
            && (judgement.Some? && after == ledger
                ==> e.issues < h.trigger || w.judging == LensBlocked || !h.ledgerBound)
            && (judgement.Some? && judgement.value.approved ==> !judgement.value.blocked && w.safe == Some(Bool(true)))
  {
  }

  /** The row says approved exactly when the action was approved, unless the decider's answer was
      truthy without being the boolean true: then the row says approved and the action is withheld. */
  lemma RowAgreesWithAction(h: Harness, ledger: seq<Row>, e: Episode, w: World)
    requires Processed(h, ledger, e, w).0 != ledger && Processed(h, ledger, e, w).1.Some?
    ensures var (after, judgement) := Processed(h, ledger, e, w);
            after[|after| - 1].approved == judgement.value.approved
            <==> !(w.safe.Some? && Truthy(w.safe.value) && !w.safe.value.Bool?)
  {
  }

  // A decider that says "yes" is recorded as an approval of an action that is blocked.
  lemma YesIsRecordedButNotActedOn(ledger: seq<Row>)
    ensures var w := World(Judged, Some(Str("yes")), Commits);
            var (after, judgement) := Processed(Harness(1, true), ledger, Episode("e", 1), w);
            && after == ledger + [Row("e", true)] && judgement.Some?
            && judgement.value.blocked && !judgement.value.approved
  {
  }

  /* -------- the adapter and the worker -------- */

  datatype CallResult =
    | Raised(reason: string)
    | ParseError
    | DuplicateSid
    | WriteFailed
    | Completed(judgement: Judgement)

  const DATA_CORRUPTION := "data_corruption"
  const DB_CONNECTION_LOSS := "db_connection_loss"

  // RETRYABLE_DEFAULT
  predicate RetryableByDefault(reason: string) {
    reason != DATA_CORRUPTION
  }

  predicate HasRow(ledger: seq<Row>, episode: string) {
    exists row | row in ledger :: row.episode == episode
  }

  // The pre-check: parse, then look the episode up (the look-up itself may raise).
  function Prechecked(h: Harness, ledger: seq<Row>, r: Reading, lookupRaises: Option<string>): Option<CallResult> {
    if !r.Reads? then Some(ParseError)
    else if h.ledgerBound && lookupRaises.Some? then Some(Raised(lookupRaises.value))
    else if h.ledgerBound && HasRow(ledger, r.episode.id) then Some(DuplicateSid)
    else None
  }

  // Anything process raises reads as a failed write.
  function ResultOf(judgement: Option<Judgement>): CallResult {
    if judgement.None? then WriteFailed else Completed(judgement.value)
  }

  // process_call: the pre-check, and what it lets through is processed.
  function Called(h: Harness, ledger: seq<Row>, r: Reading, lookupRaises: Option<string>, w: World):
    (seq<Row>, CallResult)
  {
    var early := Prechecked(h, ledger, r, lookupRaises);
    if early.Some? then (ledger, early.value)
    else
      var (longer, judgement) := Processed(h, ledger, r.episode, w);
      (longer, ResultOf(judgement))
  }

  class GovernanceHarnessJobAdapter {
    const harness: GovernanceHarness
    const parse: string -> Reading

    constructor (harness: GovernanceHarness, parse: string -> Reading)
      ensures this.harness == harness && this.parse == parse
    {
      this.harness, this.parse := harness, parse;
    }

    method ProcessCall(payload: string, lookupRaises: Option<string>, w: World) returns (result: CallResult)
      modifies harness`ledger
      ensures (harness.ledger, result)
              == Called(harness.config, old(harness.ledger), parse(payload), lookupRaises, w)
    {
      var reading := parse(payload);
      if !reading.Reads? {
        return ParseError;
      }
      var e := reading.episode;
      if harness.config.ledgerBound {
        if lookupRaises.Some? {
          return Raised(lookupRaises.value);
        }
        if HasRow(harness.ledger, e.id) {
          return DuplicateSid;
        }
      }
      var judgement := harness.Process(e, w);
      if judgement.None? {
        return WriteFailed;
      }
      return Completed(judgement.value);
    }
  }

  // handle_one: how each result settles the job.
  predicate Acks(result: CallResult) {
    result.DuplicateSid? || result.Completed?
  }

  function FailureReason(result: CallResult): string {
    match result
    case Raised(reason) => reason
    case ParseError => DATA_CORRUPTION
    case _ => DB_CONNECTION_LOSS
  }

  function Settled(c: Config, s: State, id: string, worker: string, claimId: string,
                   result: CallResult, jitter: nat): (State, Outcome) {
    if Acks(result) then Acked(c, s, id, worker, claimId, None)
    else
      var reason := FailureReason(result);
      Failed(c, s, id, worker, claimId, reason, RetryableByDefault(reason), jitter)
  }

  datatype ClaimedJob = ClaimedJob(id: string, claimId: string, payload: string)

  // The queue after the reaper thread renewed the lease of a job a number of times.
  function Beaten(s: State, job: ClaimedJob, worker: string, lease: int, beats: nat): State {
    if beats == 0 then s
    else Renewed(Beaten(s, job, worker, lease, beats - 1), job.id, worker, job.claimId, lease).0
  }

  /** Beats keep a claim that still matches, with a full lease from then on. */
  lemma {:induction false} BeatsKeepTheClaim(s: State, job: ClaimedJob, worker: string, lease: int, beats: nat)
    requires OwnerCheck(s, job.id, worker, job.claimId) == OK
    ensures var t := Beaten(s, job, worker, lease, beats);
            && OwnerCheck(t, job.id, worker, job.claimId) == OK && t.now == s.now
            && (beats > 0 ==>
                  t.jobs[job.id].lease.value.deadline == s.now + lease && t.processing[job.id] == s.now + lease)
  {
    if beats > 0 {
      BeatsKeepTheClaim(s, job, worker, lease, beats - 1);
    }
  }

  function SettledAfter(c: Config, s: State, job: ClaimedJob, worker: string, lease: int, beats: nat,
                        result: CallResult, jitter: nat): (State, Option<Outcome>) {
    var (t, outcome) := Settled(c, Beaten(s, job, worker, lease, beats), job.id, worker, job.claimId, result, jitter);
    (t, Some(outcome))
  }

  class SentinelWorker {
    const workerId: string
    const queue: TransmissionQueue
    const harness: GovernanceHarnessJobAdapter
    const lease: int
    var currentJob: Option<ClaimedJob>
    var acked: nat
    var failed: nat

    constructor (workerId: string, queue: TransmissionQueue, harness: GovernanceHarnessJobAdapter, lease: int)
      ensures this.workerId == workerId && this.queue == queue && this.harness == harness && this.lease == lease
      ensures currentJob == None && acked == 0 && failed == 0
    {
      this.workerId, this.queue, this.harness, this.lease := workerId, queue, harness, lease;
      currentJob, acked, failed := None, 0, 0;
    }

    // One round of the reaper thread's heartbeat: it renews the job in hand, if there is one.
    method Beat()
      modifies queue
      ensures queue.Contents() ==
              if currentJob.None? then old(queue.Contents())
              else Beaten(old(queue.Contents()), currentJob.value, workerId, lease, 1)
    {
      if currentJob.Some? {
        assert Beaten(queue.Contents(), currentJob.value, workerId, lease, 0) == queue.Contents();
        var outcome := queue.Heartbeat(currentJob.value.id, workerId, currentJob.value.claimId, lease);
      }
    }

    /** One claimed job, with the beats of the reaper thread that fall while process_call runs. A
        payload that is not a dict raises before anything is done: nothing is settled, and the claim
        is left to run out. */
    method HandleOne(job: ClaimedJob, lookupRaises: Option<string>, w: World, beats: nat, jitter: nat)
      returns (outcome: Option<Outcome>)
      modifies this, queue, harness.harness`ledger
      ensures var reading := harness.parse(job.payload);
              var h, rows := harness.harness.config, old(harness.harness.ledger);
              var (ledger, result) := Called(h, rows, reading, lookupRaises, w);
              if reading.NotADict? then
                && outcome == None && currentJob == old(currentJob)
                && harness.harness.ledger == rows && queue.Contents() == old(queue.Contents())
                && acked == old(acked) && failed == old(failed)
              else
                && harness.harness.ledger == ledger && currentJob == None
                && (queue.Contents(), outcome) == SettledAfter(queue.config, old(queue.Contents()), job, workerId,
                                                               lease, beats, result, jitter)
                && acked == old(acked) + (if Acks(result) then 1 else 0)
                && failed == old(failed) + (if Acks(result) then 0 else 1)
    {
      if harness.parse(job.payload).NotADict? {
        return None;
      }
      currentJob := Some(job);
      for beat := 0 to beats
        modifies queue
        invariant queue.Contents() == Beaten(old(queue.Contents()), job, workerId, lease, beat)
      {
        Beat();
      }
      var result := harness.ProcessCall(job.payload, lookupRaises, w);
      currentJob := None;
      var settled := Settle(job, result, jitter);
      return Some(settled);
    }

    // The part of handle_one after process_call.
    method Settle(job: ClaimedJob, result: CallResult, jitter: nat) returns (outcome: Outcome)
      modifies this`acked, this`failed, queue
      ensures (queue.Contents(), outcome)
              == Settled(queue.config, old(queue.Contents()), job.id, workerId, job.claimId, result, jitter)
      ensures acked == old(acked) + (if Acks(result) then 1 else 0)
      ensures failed == old(failed) + (if Acks(result) then 0 else 1)
    {
      match result {
        case Raised(reason) =>
          outcome := queue.Fail(job.id, workerId, job.claimId, reason, RetryableByDefault(reason), jitter);
          failed := failed + 1;
        case DuplicateSid =>
          outcome := queue.Ack(job.id, workerId, job.claimId, None);
          acked := acked + 1;
        case ParseError =>
          outcome := queue.Fail(job.id, workerId, job.claimId, DATA_CORRUPTION, false, jitter);
          failed := failed + 1;
        case WriteFailed =>
          outcome := queue.Fail(job.id, workerId, job.claimId, DB_CONNECTION_LOSS,
                                RetryableByDefault(DB_CONNECTION_LOSS), jitter);
          failed := failed + 1;
        case Completed(_) =>
          outcome := queue.Ack(job.id, workerId, job.claimId, None);
          acked := acked + 1;
      }
    }
  }
}
