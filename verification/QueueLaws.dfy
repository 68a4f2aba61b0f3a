/** What the queue promises its callers, and where its audit disagrees with it. */
module QueueLaws {
  import opened Wrappers
  import opened Sequences
  import opened Queue
  import opened QueueRuns

  /* -------- the fence -------- */

  /** A duplicate enqueue, and an ack, a failure or a heartbeat whose fence does not match, change
      nothing but a counter, and say so. */
  lemma NonMatchingFenceChangesNothing(c: Config, s: State, id: string, worker: string, claimId: string,
                                       result: Option<string>, reason: string, retryable: bool, jitter: nat, lease: int)
    requires OwnerCheck(s, id, worker, claimId) != OK
    ensures var (t, answer) := Acked(c, s, id, worker, claimId, result);
            s == t.(counters := s.counters) && answer == if id !in s.jobs || IsFinished(s, id) then GONE else STALE
    ensures var (t, answer) := Failed(c, s, id, worker, claimId, reason, retryable, jitter);
            s == t.(counters := s.counters) && answer == if id !in s.jobs || IsFinished(s, id) then GONE else STALE
    ensures var (t, answer) := Renewed(s, id, worker, claimId, lease);
            s == t.(counters := s.counters) && answer == if id !in s.jobs || IsFinished(s, id) then GONE else STALE
  {
  }

  lemma DuplicateEnqueueChangesNothing(s: State, id: string, payload: string, maxAttempts: int)
    requires id in s.jobs
    ensures var (t, created, status) := Enqueued(s, id, payload, maxAttempts);
            s == t.(counters := s.counters) && !created && status == s.jobs[id].status
  {
  }

  ghost predicate Holds(s: State, id: string, worker: string, claimId: string) {
    OwnerCheck(s, id, worker, claimId) == OK
  }

  lemma {:induction false} PromotedHolds(s: State, due: seq<string>, mark: bool, id: string, worker: string,
                                         claimId: string)
    requires Holds(Promoted(s, due, mark), id, worker, claimId)
    ensures Holds(s, id, worker, claimId)
  {
    if due != [] {
      PromotedHolds(s, due[..|due| - 1], mark, id, worker, claimId);
    }
  }

  lemma ReapedOneHolds(c: Config, s: State, expired: string, id: string, worker: string, claimId: string)
    requires Holds(ReapedOne(c, s, expired).0, id, worker, claimId)
    ensures Holds(s, id, worker, claimId)
  {
    hide Trail;
    var t := ReapedOne(c, s, expired).0;
    if id != expired {
      assert id in s.jobs && t.jobs[id] == s.jobs[id];
    }
  }

  lemma {:induction false} ReapedHolds(c: Config, s: State, expired: seq<string>, id: string, worker: string,
                                       claimId: string)
    requires Holds(Reaped(c, s, expired).0, id, worker, claimId)
    ensures Holds(s, id, worker, claimId)
  {
    if expired != [] {
      hide Holds, ReapedOne;
      var n := |expired| - 1;
      ReapedOneHolds(c, Reaped(c, s, expired[..n]).0, expired[n], id, worker, claimId);
      ReapedHolds(c, s, expired[..n], id, worker, claimId);
    }
  }

  lemma {:induction false} TakenHolds(s: State, worker: string, claimId: string, lease: int, scans: nat,
                                      id: string, w: string, k: string)
    requires Holds(Taken(s, worker, claimId, lease, scans).0, id, w, k)
    ensures Holds(s, id, w, k) || (w == worker && k == claimId)
    decreases scans
  {
    if scans != 0 && s.pending != [] {
      var n := |s.pending| - 1;
      var last := s.pending[n];
      if last !in s.jobs {
        TakenHolds(Quarantined(Popped(s), last), worker, claimId, lease, scans - 1, id, w, k);
      }
    }
  }

  lemma FailedHolds(c: Config, s: State, x: string, w: string, k: string, reason: string, retryable: bool, jitter: nat,
                    id: string, worker: string, claimId: string)
    requires Holds(Failed(c, s, x, w, k, reason, retryable, jitter).0, id, worker, claimId)
    ensures Holds(s, id, worker, claimId)
  {
    hide Backoff, Trail;
    var t := Failed(c, s, x, w, k, reason, retryable, jitter).0;
    if id != x || OwnerCheck(s, x, w, k) != OK {
      assert id in s.jobs && t.jobs[id] == s.jobs[id];
    }
  }

  lemma AckedHolds(c: Config, s: State, x: string, w: string, k: string, result: Option<string>,
                   id: string, worker: string, claimId: string)
    requires Holds(Acked(c, s, x, w, k, result).0, id, worker, claimId)
    ensures Holds(s, id, worker, claimId)
  {
  }

  // Only a claim gives anyone a fence that matches.
  lemma StepHolds(c: Config, s: State, command: Command, id: string, worker: string, claimId: string)
    requires Holds(Next(c, s, command), id, worker, claimId)
    requires !(command.Claim? && command.worker == worker && command.claimId == claimId)
    ensures Holds(s, id, worker, claimId)
  {
    hide Claimed, Reaped, Promoted, Failed, Acked;
    match command
    case PromoteDue(_, due) => PromotedHolds(s, due, true, id, worker, claimId);
    case Reap(_, expired) => ReapedHolds(c, s, expired, id, worker, claimId);
    case Claim(w, k, lease, _, due) => ClaimedHolds(s, w, k, lease, due, id, worker, claimId);
    case Fail(x, w, k, reason, retryable, jitter) =>
      FailedHolds(c, s, x, w, k, reason, retryable, jitter, id, worker, claimId);
    case Ack(x, w, k, result) => AckedHolds(c, s, x, w, k, result, id, worker, claimId);
    case _ =>
  }

  lemma ClaimedHolds(s: State, w: string, k: string, lease: int, due: seq<string>, id: string, worker: string,
                     claimId: string)
    requires Holds(Claimed(s, w, k, lease, due).0, id, worker, claimId)
    ensures Holds(s, id, worker, claimId) || (worker == w && claimId == k)
  {
    hide Taken, Promoted, OwnerCheck;
    TakenHolds(Promoted(s, due, false), w, k, lease, MAX_SCAN, id, worker, claimId);
    if Holds(Promoted(s, due, false), id, worker, claimId) {
      PromotedHolds(s, due, false, id, worker, claimId);
    }
  }

  /** Once a worker has lost a claim, by ack, failure or reaping, that claim never matches again in
      any later state, unless its claim id is issued a second time. */
  lemma {:induction false} LostFenceStaysLost(c: Config, start: int, earlier: seq<Command>, later: seq<Command>,
                                              id: string, worker: string, claimId: string)
    requires !Holds(Run(c, start, earlier), id, worker, claimId)
    requires forall k | 0 <= k < |later| ::
             !(later[k].Claim? && later[k].worker == worker && later[k].claimId == claimId)
    ensures !Holds(Run(c, start, earlier + later), id, worker, claimId)
  {
    hide Holds, Next;
    if later == [] {
      assert earlier + later == earlier;
    } else {
      var n := |later| - 1;
      var all := earlier + later;
      assert all[..|all| - 1] == earlier + later[..n];
      LostFenceStaysLost(c, start, earlier, later[..n], id, worker, claimId);
      if Holds(Run(c, start, all), id, worker, claimId) {
        StepHolds(c, Run(c, start, earlier + later[..n]), later[n], id, worker, claimId);
      }
    }
  }

  /* -------- claims -------- */

  /** A claim takes the oldest reference in line, of a job no one was processing, and leaves the
      claimant as the only holder; it takes nothing only when nothing is pending or due; and it
      never finds an orphan. */
  lemma ClaimTakesOldest(c: Config, s: State, worker: string, claimId: string, lease: int, batch: int, due: seq<string>)
    requires WellFormed(c, s) && IsRange(s.scheduled, s.now, batch, due)
    ensures var ready := Promoted(s, due, false);
            var (t, claimed) := Claimed(s, worker, claimId, lease, due);
            && t.orphans == []
            && (claimed.None? <==> s.pending == [] && due == [])
            && (claimed.Some? ==>
                  var id := claimed.value;
                  && ready.pending != [] && id == ready.pending[|ready.pending| - 1]
                  && id in s.jobs && s.jobs[id].status != Processing
                  && Holds(t, id, worker, claimId)
                  && t.jobs[id].attempts == s.jobs[id].attempts + 1)
  {
    hide WellFormed, NoDuplicates, Promoted;
    PromoteKeeps(c, s, due, false);
    PromotedSame(s, due, false);
    var ready := Promoted(s, due, false);
    NothingIsOrphaned(c, ready);
    if due != [] {
      assert due[0] in ready.pending;
    }
    if s.pending != [] {
      assert s.pending[0] in ready.pending;
    }
    if ready.pending != [] {
      var id := ready.pending[|ready.pending| - 1];
      assert id in ready.pending;
      PendingIsLive(c, ready, id);
    }
  }

  lemma NothingIsOrphaned(c: Config, s: State)
    requires WellFormed(c, s)
    ensures s.orphans == []
  {
  }

  lemma PendingIsLive(c: Config, s: State, id: string)
    requires WellFormed(c, s) && id in s.pending
    ensures id in s.jobs && (s.jobs[id].status == Pending || s.jobs[id].status == Scheduled)
  {
    assert Sound(c, s, id);
  }

  // Promotion touches at most the status of a job.
  lemma {:induction false} PromotedSame(s: State, due: seq<string>, mark: bool)
    ensures var t := Promoted(s, due, mark);
            && t.jobs.Keys == s.jobs.Keys
            && (forall x | x in s.jobs :: t.jobs[x] == s.jobs[x].(status := t.jobs[x].status))
            && (forall x | x in s.jobs :: t.jobs[x].status == s.jobs[x].status || t.jobs[x].status == Pending)
            && (!mark ==> t.jobs == s.jobs)
  {
    if due != [] {
      PromotedSame(s, due[..|due| - 1], mark);
    }
  }

  /* -------- first in, first out -------- */

  // line ends with what was waiting before.
  ghost predicate Behind(line: seq<string>, waiting: seq<string>) {
    |line| >= |waiting| && line[|line| - |waiting|..] == waiting
  }

  lemma BehindMore(line: seq<string>, more: seq<string>, waiting: seq<string>)
    requires Behind(line, waiting)
    ensures Behind(more + line, waiting)
  {
    var all := more + line;
    assert all[|all| - |waiting|..] == line[|line| - |waiting|..];
  }

  lemma {:induction false} PromotedBehind(s: State, due: seq<string>, mark: bool)
    ensures Behind(Promoted(s, due, mark).pending, s.pending)
  {
    if due != [] {
      hide Behind;
      PromotedBehind(s, due[..|due| - 1], mark);
      BehindMore(Promoted(s, due[..|due| - 1], mark).pending, [due[|due| - 1]], s.pending);
    }
  }

  lemma {:induction false} ReapedBehind(c: Config, s: State, expired: seq<string>)
    ensures Behind(Reaped(c, s, expired).0.pending, s.pending)
  {
    if expired != [] {
      hide Behind, ReapedOne;
      var n := |expired| - 1;
      var earlier := Reaped(c, s, expired[..n]).0;
      ReapedBehind(c, s, expired[..n]);
      ReapedOneBehind(c, earlier, expired[n]);
      if ReapedOne(c, earlier, expired[n]).0.pending == [expired[n]] + earlier.pending {
        BehindMore(earlier.pending, [expired[n]], s.pending);
      }
    }
  }

  lemma ReapedOneBehind(c: Config, s: State, id: string)
    ensures ReapedOne(c, s, id).0.pending in {s.pending, [id] + s.pending}
  {
    hide Trail;
  }

  lemma FailedBehind(c: Config, s: State, id: string, worker: string, claimId: string,
                     reason: string, retryable: bool, jitter: nat)
    ensures Failed(c, s, id, worker, claimId, reason, retryable, jitter).0.pending == s.pending
  {
    hide Trail, Backoff;
  }

  /** The line is first in, first out: no step puts a reference ahead of one already waiting, and the
      only one a step may take out is the one at the end, which a claim has been given. */
  lemma NoOneJumpsTheLine(c: Config, s: State, command: Command)
    requires WellFormed(c, s) && Enabled(c, s, command)
    ensures var t := Next(c, s, command);
            var taken :=
              if command.Claim? then Claimed(s, command.worker, command.claimId, command.lease, command.due).1
              else None;
            Behind(t.pending + (if taken.Some? then [taken.value] else []), s.pending)
  {
    hide WellFormed, Promoted, Reaped, Failed, NoDuplicates, Claimed;
    assert forall line: seq<string> :: line + [] == line;
    match command
    case Claim(worker, claimId, lease, _, due) =>
      ClaimedBehind(c, s, worker, claimId, lease, due);
    case PromoteDue(_, due) => PromotedBehind(s, due, true);
    case Reap(_, expired) => ReapedBehind(c, s, expired);
    case Fail(id, worker, claimId, reason, retryable, jitter) =>
      FailedBehind(c, s, id, worker, claimId, reason, retryable, jitter);
    case Enqueue(id, _, _) => BehindMore(s.pending, [id], s.pending);
    case RequeueDead(id) => BehindMore(s.pending, [id], s.pending);
    case _ =>
  }

  lemma ClaimedBehind(c: Config, s: State, worker: string, claimId: string, lease: int, due: seq<string>)
    requires WellFormed(c, s) && NoDuplicates(due) && forall id | id in due :: id in s.scheduled
    ensures var (t, taken) := Claimed(s, worker, claimId, lease, due);
            Behind(t.pending + (if taken.Some? then [taken.value] else []), s.pending)
  {
    hide WellFormed, NoDuplicates, Promoted, Behind;
    PromoteKeeps(c, s, due, false);
    PromotedBehind(s, due, false);
    var ready := Promoted(s, due, false).pending;
    if ready != [] {
      PendingIsLive(c, Promoted(s, due, false), ready[|ready| - 1]);
      assert ready[..|ready| - 1] + [ready[|ready| - 1]] == ready;
    } else {
      assert ready + [] == ready;
    }
  }

  /* -------- no job is lost -------- */

  ghost predicate Unfinished(s: State, id: string) {
    id in s.jobs && s.jobs[id].status != Done
  }

  lemma {:induction false} TakenUnfinished(s: State, worker: string, claimId: string, lease: int, scans: nat,
                                           id: string)
    requires Unfinished(s, id)
    ensures Unfinished(Taken(s, worker, claimId, lease, scans).0, id)
    decreases scans
  {
    if scans != 0 && s.pending != [] {
      var n := |s.pending| - 1;
      var last := s.pending[n];
      if last !in s.jobs {
        TakenUnfinished(Quarantined(Popped(s), last), worker, claimId, lease, scans - 1, id);
      }
    }
  }

  lemma ReapedOneUnfinished(c: Config, s: State, expired: string, id: string)
    requires Unfinished(s, id)
    ensures Unfinished(ReapedOne(c, s, expired).0, id)
  {
    if expired in s.jobs {
      hide ReapedOne;
      ReapedElsewhere(c, s, expired);
      OneReaped(c, s, expired);
    }
  }

  lemma {:induction false} ReapedUnfinished(c: Config, s: State, expired: seq<string>, id: string)
    requires Unfinished(s, id)
    ensures Unfinished(Reaped(c, s, expired).0, id)
  {
    if expired != [] {
      hide ReapedOne, Unfinished;
      var n := |expired| - 1;
      ReapedUnfinished(c, s, expired[..n], id);
      ReapedOneUnfinished(c, Reaped(c, s, expired[..n]).0, expired[n], id);
    }
  }

  lemma FailedUnfinished(c: Config, s: State, x: string, w: string, k: string, reason: string, retryable: bool,
                         jitter: nat, id: string)
    requires Unfinished(s, id)
    ensures Unfinished(Failed(c, s, x, w, k, reason, retryable, jitter).0, id)
  {
    hide Backoff, Trail;
  }

  lemma ClaimedUnfinished(s: State, w: string, k: string, lease: int, due: seq<string>, id: string)
    requires Unfinished(s, id)
    ensures Unfinished(Claimed(s, w, k, lease, due).0, id)
  {
    hide Taken, Promoted;
    PromotedSame(s, due, false);
    TakenUnfinished(Promoted(s, due, false), w, k, lease, MAX_SCAN, id);
  }

  lemma AckedUnfinished(c: Config, s: State, x: string, w: string, k: string, result: Option<string>, id: string)
    requires Unfinished(s, id) && !(x == id && Holds(s, id, w, k))
    ensures Unfinished(Acked(c, s, x, w, k, result).0, id)
  {
  }

  /** No step but an ack under the matching fence finishes a job or makes its record go away: a
      crash, at any point, loses none. */
  lemma OnlyAnAckFinishes(c: Config, s: State, command: Command, id: string)
    requires Unfinished(s, id) && Enabled(c, s, command)
    requires !(command.Ack? && command.id == id && Holds(s, id, command.worker, command.claimId))
    ensures Unfinished(Next(c, s, command), id)
  {
    hide Claimed, Reaped, Promoted, Failed, Acked;
    match command
    case PromoteDue(_, due) => PromotedSame(s, due, true);
    case Reap(_, expired) => ReapedUnfinished(c, s, expired, id);
    case Claim(w, k, lease, _, due) => ClaimedUnfinished(s, w, k, lease, due, id);
    case Fail(x, w, k, reason, retryable, jitter) => FailedUnfinished(c, s, x, w, k, reason, retryable, jitter, id);
    case Ack(x, w, k, result) => AckedUnfinished(c, s, x, w, k, result, id);
    case _ =>
  }

  /** In every run a live job is in exactly one of pending, scheduled, processing and dead, and that
      is its status, but for a retry a claim has promoted; a finished job is in none of them, and
      only a finished job, or an entry past its retention, is in done. */
  lemma EveryJobHasOnePlace(c: Config, start: int, commands: seq<Command>, id: string)
    requires Legal(c, start, commands)
    ensures var s := Run(c, start, commands);
            var places := Places(s, id) - {Done};
            && places == (if !Unfinished(s, id) then {}
                          else if id in s.pending then {Pending} else {s.jobs[id].status})
            && (Unfinished(s, id) && id in s.pending ==> s.jobs[id].status == Pending || s.jobs[id].status == Scheduled)
            && (id in s.done && !IsFinished(s, id) ==> s.done[id] <= s.now - c.keep)
            && s.orphans == []
  {
    hide Run, NoDuplicates, Places, Unfinished, IsFinished;
    EveryRunIsWellFormed(c, start, commands);
    var s := Run(c, start, commands);
    assert Sound(c, s, id);
    hide WellFormed;
    OnePlace(c, s, id);
    NothingIsOrphaned(c, s);
  }

  lemma OnePlace(c: Config, s: State, id: string)
    requires Sound(c, s, id)
    ensures Places(s, id) - {Done} == (if !Unfinished(s, id) then {}
                                       else if id in s.pending then {Pending} else {s.jobs[id].status})
    ensures Unfinished(s, id) && id in s.pending ==> s.jobs[id].status == Pending || s.jobs[id].status == Scheduled
    ensures id in s.done && !IsFinished(s, id) ==> s.done[id] <= s.now - c.keep
  {
    hide Budgeted, Explained;
    var places := Places(s, id) - {Done};
    assert Pending in places <==> id in s.pending;
    assert Scheduled in places <==> id in s.scheduled;
    assert Processing in places <==> id in s.processing;
    assert Dead in places <==> id in s.dead;
  }

  /* -------- reaping -------- */

  lemma ReapedElsewhere(c: Config, s: State, expired: string)
    requires expired in s.jobs
    ensures var t := ReapedOne(c, s, expired).0;
            t.jobs.Keys == s.jobs.Keys && forall x | x in s.jobs && x != expired :: t.jobs[x] == s.jobs[x]
  {
    hide Trail;
  }

  predicate Spent(job: Job) {
    job.attempts >= job.maxAttempts
  }

  // Job id of s was reaped once, with this disposition.
  ghost predicate Recovered(s: State, t: State, id: string, entry: (string, Disposition)) {
    && entry.0 == id && id in s.jobs && id in t.jobs
    && entry.1 == (if Spent(s.jobs[id]) then ToDead else ToPending)
    && t.jobs[id].status == (if Spent(s.jobs[id]) then Dead else Pending)
  }

  /** Reaping recovers each expired job once: it is pending again, or dead if its attempts are
      spent, and never an orphan; no other job is touched. */
  lemma {:induction false} ReapRecovers(c: Config, s: State, expired: seq<string>)
    requires WellFormed(c, s) && NoDuplicates(expired)
    requires forall id | id in expired :: id in s.processing
    ensures var (t, report) := Reaped(c, s, expired);
            && |report| == |expired|
            && t.jobs.Keys == s.jobs.Keys
            && (forall x | x in s.jobs && x !in expired :: t.jobs[x] == s.jobs[x])
            && forall i | 0 <= i < |expired| :: Recovered(s, t, expired[i], report[i])
  {
    if expired != [] {
      hide WellFormed, NoDuplicates, ReapedOne, Recovered;
      var n := |expired| - 1;
      var rest, id := expired[..n], expired[n];
      assert expired == rest + [id];
      DistinctSnoc(rest, id);
      ReapRecovers(c, s, rest);
      ReapKeeps(c, s, rest);
      var (earlier, report) := Reaped(c, s, rest);
      assert id in earlier.processing;
      ReapOneKeeps(c, earlier, id);
      ReapedElsewhere(c, earlier, id);
      OneReaped(c, earlier, id);
      RecoverStep(s, earlier, ReapedOne(c, earlier, id), rest, id, report);
    }
  }

  lemma RecoverStep(s: State, m: State, last: (State, Disposition), rest: seq<string>, id: string,
                    report: seq<(string, Disposition)>)
    requires |report| == |rest| && id !in rest && id in s.jobs && id in m.jobs && m.jobs[id] == s.jobs[id]
    requires forall i | 0 <= i < |rest| :: Recovered(s, m, rest[i], report[i])
    requires forall x | x in m.jobs && x != id :: x in last.0.jobs && last.0.jobs[x] == m.jobs[x]
    requires Recovered(m, last.0, id, (id, last.1))
    ensures forall i | 0 <= i < |rest + [id]| :: Recovered(s, last.0, (rest + [id])[i], (report + [(id, last.1)])[i])
  {
    forall i | 0 <= i < |rest|
      ensures Recovered(s, last.0, rest[i], report[i])
    {
      assert rest[i] in rest;
      assert Recovered(s, m, rest[i], report[i]);
    }
  }

  lemma OneReaped(c: Config, s: State, id: string)
    requires id in s.jobs
    ensures var (t, disposition) := ReapedOne(c, s, id); Recovered(s, t, id, (id, disposition))
  {
    hide Trail;
  }

  lemma NoExpiredLeaseIsLeft(c: Config, s: State, batch: int, expired: seq<string>, id: string)
    requires WellFormed(c, s) && IsRange(s.processing, s.now, batch, expired) && |expired| != batch
    ensures var t := Reaped(c, s, expired).0; id in t.processing ==> id in s.processing && s.processing[id] > s.now
  {
    hide WellFormed, NoDuplicates, Reaped;
    ReapKeeps(c, s, expired);
  }

  /* -------- the audit -------- */

  // What the audit takes for granted of a job.
  ghost predicate AsAudited(c: Config, s: State, id: string) {
    id in s.jobs ==>
      && !(s.jobs[id].status == Scheduled && id in s.pending)
      && (s.jobs[id].status == Done ==>
            s.jobs[id].completedAt.Some? && s.jobs[id].completedAt.value > s.now - Grace(c))
  }

  lemma AuditKeeps(c: Config, s: State)
    requires WellFormed(c, s)
    ensures var t := Audited(c, s);
            && WellFormed(c, t) && t == s.(done := t.done)
            && forall id | id in t.done :: t.done[id] > t.now - Grace(c)
  {
    hide WellFormed, Sound;
    if c.keep > 0 {
      PruneKeeps(c, s, s.now - Grace(c));
    } else {
      NothingDone(c, s);
    }
  }

  lemma NothingDone(c: Config, s: State)
    requires WellFormed(c, s) && c.keep <= 0
    ensures forall id :: id !in s.done
  {
    forall id
      ensures id !in s.done
    {
      assert Sound(c, s, id);
    }
  }

  lemma AuditPlaces(c: Config, s: State, id: string)
    requires Sound(c, s, id) && id in s.jobs && (id in s.done ==> s.done[id] > s.now - Grace(c))
    ensures Places(s, id) == {s.jobs[id].status} <==> AsAudited(c, s, id)
  {
    hide Budgeted, Explained;
    var status := s.jobs[id].status;
    assert Dead in Places(s, id) <==> status == Dead;
    assert Processing in Places(s, id) <==> status == Processing;
    assert Done in Places(s, id) <==> id in s.done;
    assert Pending in Places(s, id) <==> id in s.pending;
    assert Scheduled in Places(s, id) <==> id in s.scheduled;
    assert id in s.done ==> status == Done;
  }

  lemma AuditedInJobs(c: Config, s: State, id: string)
    requires Sound(c, s, id) && (id in s.done ==> s.done[id] > s.now - Grace(c))
    requires id in s.pending || id in s.scheduled || id in s.processing || id in s.dead || id in s.done
    ensures id in s.jobs
  {
  }

  /** For ids without a colon, the audit is clean exactly when no retry was promoted by a claim and
      is still waiting, and no done record has reached the last second of its retention. */
  lemma AuditIsExact(c: Config, s: State)
    requires WellFormed(c, s) && forall id | id in s.jobs :: ':' !in id
    ensures Clean(Audited(c, s)) <==> forall id | id in s.jobs :: AsAudited(c, s, id)
  {
    hide Sound, Places, AsAudited, Audited, Balanced;
    AuditKeeps(c, s);
    var t := Audited(c, s);
    assert forall id | id in t.jobs :: Tail(id) == id;
    assert JobIds(t) == t.jobs.Keys;
    hide Tail, JobIds;
    forall id | id in t.jobs
      ensures Places(t, Tail(id)) == {t.jobs[id].status} <==> AsAudited(c, s, id)
    {
      assert Sound(c, t, id);
      AuditPlaces(c, t, id);
      DoneIsNotRead(c, s, t, id);
    }
    forall id | id in t.pending || id in t.scheduled || id in t.processing || id in t.dead || id in t.done
      ensures id in t.jobs
    {
      assert Sound(c, t, id);
      AuditedInJobs(c, t, id);
    }
  }

  lemma DoneIsNotRead(c: Config, s: State, t: State, id: string)
    requires t == s.(done := t.done)
    ensures AsAudited(c, s, id) <==> AsAudited(c, t, id)
  {
  }

  /** A live job whose id has a colon is always reported: the audit looks it up under what follows
      the last colon. */
  lemma ColonIsReported(c: Config, s: State, id: string)
    requires WellFormed(c, s) && Unfinished(s, id) && ':' in id
    ensures !Clean(Audited(c, s))
  {
    hide NoDuplicates, Balanced;
    AuditKeeps(c, s);
    var t := Audited(c, s);
    assert Sound(c, t, id);
    assert id !in JobIds(t);
  }

  lemma ScheduledIsMarked(c: Config, s: State, id: string)
    requires WellFormed(c, s) && id in s.scheduled
    ensures id in s.jobs && s.jobs[id].status == Scheduled
  {
    assert Sound(c, s, id);
  }

  /** A retry promoted by a claim that took another job waits in pending with status scheduled. */
  lemma PromotedByAClaim(c: Config, s: State, worker: string, claimId: string, lease: int, batch: int,
                         due: seq<string>, id: string)
    requires WellFormed(c, s) && IsRange(s.scheduled, s.now, batch, due) && id in due
    requires Claimed(s, worker, claimId, lease, due).1 != Some(id)
    ensures var t := Claimed(s, worker, claimId, lease, due).0;
            id in t.pending && id in t.jobs && t.jobs[id].status == Scheduled
  {
    hide NoDuplicates, Promoted, WellFormed;
    ScheduledIsMarked(c, s, id);
    PromoteKeeps(c, s, due, false);
    PromotedSame(s, due, false);
    var ready := Promoted(s, due, false);
    assert id in ready.pending;
    PendingIsLive(c, ready, ready.pending[|ready.pending| - 1]);
  }

  const DAY := Config(86_400_000, 1_000, 60_000, 8)

  lemma RunStep(c: Config, start: int, commands: seq<Command>, command: Command)
    ensures Run(c, start, commands + [command]) == Next(c, Run(c, start, commands), command)
    ensures Legal(c, start, commands + [command])
            <==> Legal(c, start, commands) && Enabled(c, Run(c, start, commands), command)
  {
    hide Next, Enabled;
    assert (commands + [command])[..|commands|] == commands;
  }

  lemma ClaimedOnce() returns (commands: seq<Command>)
    ensures Legal(DAY, 0, commands)
    ensures var s := Run(DAY, 0, commands);
            && s.now == 0 && s.pending == [] && s.jobs.Keys == {"a"} && s.scheduled == map[]
            && Holds(s, "a", "w", "1") && s.jobs["a"].attempts == 1 && s.jobs["a"].maxAttempts == 3
  {
    hide Legal, Run;
    NoCommands();
    var c1 := [Command.Enqueue("a", "", 3)];
    RunStep(DAY, 0, [], c1[0]);
    var s1 := Run(DAY, 0, c1);
    assert [] + c1 == c1;
    assert s1.pending == ["a"] && s1.jobs.Keys == {"a"} && s1.scheduled == map[];
    var claim := Command.Claim("w", "1", 30_000, 64, []);
    RunStep(DAY, 0, c1, claim);
    commands := c1 + [claim];
  }

  lemma FailedOnce() returns (commands: seq<Command>)
    ensures Legal(DAY, 0, commands)
    ensures var s := Run(DAY, 0, commands);
            && s.now == 0 && s.pending == [] && s.jobs.Keys == {"a"} && s.scheduled == map["a" := 1_000]
  {
    hide Legal, Run;
    var c2 := ClaimedOnce();
    var fail := Command.Fail("a", "w", "1", "network", true, 0);
    RunStep(DAY, 0, c2, fail);
    assert Backoff(DAY, 1, 0) == 1_000;
    commands := c2 + [fail];
  }

  lemma WaitingBehind() returns (commands: seq<Command>)
    ensures Legal(DAY, 0, commands)
    ensures var s := Run(DAY, 0, commands);
            s.now == 1_000 && s.pending == ["b"] && s.jobs.Keys == {"a", "b"} && s.scheduled == map["a" := 1_000]
  {
    hide Legal, Run;
    var c3 := FailedOnce();
    var other := Command.Enqueue("b", "", 3);
    RunStep(DAY, 0, c3, other);
    var c4 := c3 + [other];
    RunStep(DAY, 0, c4, Command.Tick(1_000));
    commands := c4 + [Command.Tick(1_000)];
  }

  /** The first way the audit cries wolf: job a fails and is scheduled, b arrives, and the claim
      that promotes a takes b. */
  lemma ClaimBreaksTheAudit() returns (commands: seq<Command>)
    ensures Legal(DAY, 0, commands) && !Clean(Audited(DAY, Run(DAY, 0, commands)))
  {
    hide Legal, Run, Clean, Audited, WellFormed, Claimed;
    var earlier := WaitingBehind();
    var second := Command.Claim("w", "2", 30_000, 64, ["a"]);
    RunStep(DAY, 0, earlier, second);
    commands := earlier + [second];
    var s, t := Run(DAY, 0, earlier), Run(DAY, 0, commands);
    EveryRunIsWellFormed(DAY, 0, earlier);
    EveryRunIsWellFormed(DAY, 0, commands);
    TakesB(s);
    PromotedByAClaim(DAY, s, "w", "2", 30_000, 64, ["a"], "a");
    AuditIsExact(DAY, t);
    assert !AsAudited(DAY, t, "a");
  }

  lemma NoCommands()
    ensures Legal(DAY, 0, []) && Run(DAY, 0, []) == Empty(0)
  {
  }

  lemma TakesB(s: State)
    requires s.pending == ["b"] && "b" in s.jobs && "a" in s.jobs
    ensures var (t, claimed) := Claimed(s, "w", "2", 30_000, ["a"]);
            claimed == Some("b") && t.jobs.Keys == s.jobs.Keys
  {
    var ready := PromotedOne(s, "a", false);
    assert ["a"][..0] == [];
    assert Promoted(s, ["a"], false) == ready;
    assert ready.pending == ["a", "b"];
  }

  /** The second: half a second before its record expires, a finished job is in no structure. */
  lemma RetentionBreaksTheAudit() returns (commands: seq<Command>)
    ensures Legal(DAY, 0, commands) && !Clean(Audited(DAY, Run(DAY, 0, commands)))
    ensures IsFinished(Run(DAY, 0, commands), "a")
  {
    hide Legal, Run, Clean, Audited, WellFormed;
    var c2 := ClaimedOnce();
    var ack := Command.Ack("a", "w", "1", None);
    RunStep(DAY, 0, c2, ack);
    var c3 := c2 + [ack];
    var tick := Command.Tick(DAY.keep - 500);
    RunStep(DAY, 0, c3, tick);
    commands := c3 + [tick];
    var t := Run(DAY, 0, commands);
    assert t.jobs.Keys == {"a"} && t.jobs["a"].completedAt == Some(0);
    EveryRunIsWellFormed(DAY, 0, commands);
    AuditIsExact(DAY, t);
    assert !AsAudited(DAY, t, "a");
  }

  /* -------- backoff -------- */

  lemma PowerGrows(m: nat, n: nat)
    requires m <= n
    ensures 1 <= Power(m) <= Power(n)
  {
    if m < n {
      PowerGrows(m, n - 1);
    } else if m > 0 {
      PowerGrows(m - 1, m - 1);
    }
  }

  lemma Scaled(base: nat, x: nat, y: nat)
    requires x <= y
    ensures base * x <= base * y
  {
  }

  /** Backoff starts at the base, never shrinks from one attempt to a later one, and never passes
      the cap by more than the jitter. */
  lemma BackoffGrowsToItsCap(c: Config, attempts: int, later: int, jitter: nat)
    requires 1 <= attempts <= later && c.baseBackoff <= c.maxBackoff
    ensures c.baseBackoff <= Backoff(c, attempts, 0) <= Backoff(c, later, 0)
    ensures jitter <= Backoff(c, later, jitter) <= c.maxBackoff + jitter
    ensures Backoff(c, 1, 0) == c.baseBackoff
  {
    hide Power;
    PowerGrows(0, attempts - 1);
    PowerGrows(attempts - 1, later - 1);
    PowerOfNone();
    Scaled(c.baseBackoff, 1, Power(attempts - 1));
    Scaled(c.baseBackoff, Power(attempts - 1), Power(later - 1));
  }

  lemma PowerOfNone()
    ensures Power(0) == 1
  {
  }
}
