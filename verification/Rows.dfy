/** How many rows an episode gets. The ledger has no unique index on episode_id
    (sentinel_os/governance/ledger_postgres.py), so only the pre-check stands in the way of a second. */
module Rows {
  import opened Json
  import opened Wrappers
  import opened Queue
  import opened QueueRuns
  import opened QueueLaws
  import opened Harness
  import opened Worker

  /** An attempt whose append failed settles nothing as done: it never acks. */
  lemma FailedAppendNeverAcks(u: Setup, s: System, worker: string, jitter: nat, id: string)
    requires CanStep(u, s, SettleStep(worker, jitter)) && s.phases[worker].result == WriteFailed
    requires Unfinished(s.queue, id)
    ensures Unfinished(After(u, s, SettleStep(worker, jitter)).queue, id)
  {
    hide Failed, Unfinished;
    var job := s.phases[worker].job;
    FailedUnfinished(u.config, s.queue, job.id, worker, job.claimId, DB_CONNECTION_LOSS,
                     RetryableByDefault(DB_CONNECTION_LOSS), jitter, id);
  }

  ghost predicate OneRowEach(ledger: seq<Row>) {
    forall i, j | 0 <= i < j < |ledger| :: ledger[i].episode != ledger[j].episode
  }

  lemma OneMoreRow(ledger: seq<Row>, row: Row)
    ensures OneRowEach(ledger + [row]) <==> OneRowEach(ledger) && !HasRow(ledger, row.episode)
  {
    var longer := ledger + [row];
    assert forall i | 0 <= i < |ledger| :: longer[i] == ledger[i];
    assert longer[|ledger|] == row;
    if HasRow(ledger, row.episode) {
      var other :| other in ledger && other.episode == row.episode;
      var i :| 0 <= i < |ledger| && ledger[i] == other;
      assert longer[i].episode == longer[|ledger|].episode;
    }
  }

  // A worker appends a row for an episode that has one.
  ghost predicate AppendsAgain(u: Setup, s: System, step: Step) {
    && step.ProcessStep? && CanStep(u, s, step)
    && After(u, s, step).ledger != s.ledger
    && HasRow(s.ledger, s.phases[step.worker].episode.id)
  }

  lemma StepRows(u: Setup, s: System, step: Step)
    requires CanStep(u, s, step)
    ensures OneRowEach(After(u, s, step).ledger) <==> OneRowEach(s.ledger) && !AppendsAgain(u, s, step)
  {
    hide HasRow, OneRowEach, Next, Settled, Queue.Claimed, Enabled, IsRange, Prechecked;
    if step.ProcessStep? {
      var e := s.phases[step.worker].episode;
      OneMoreRow(s.ledger, Row(e.id, RecordedAsApproved(step.world.safe)));
    }
  }

  lemma {:induction false} SomeoneAppendsAgain(u: Setup, start: int, trace: seq<System>, steps: seq<Step>, n: nat)
    requires IsRun(u, start, trace, steps) && n <= |steps|
    ensures OneRowEach(trace[n].ledger) <==> forall i | 0 <= i < n :: !AppendsAgain(u, trace[i], steps[i])
  {
    hide AppendsAgain, CanStep, After;
    if n == 0 {
      assert trace[0].ledger == [];
    } else {
      SomeoneAppendsAgain(u, start, trace, steps, n - 1);
      StepRows(u, trace[n - 1], steps[n - 1]);
      hide OneRowEach;
    }
  }

  /* -------- who overtakes whom -------- */

  // At step i a worker past its pre-check commits a row for this episode.
  ghost predicate CommitsAt(trace: seq<System>, steps: seq<Step>, i: nat, worker: string, episode: string) {
    && i < |steps| && |trace| == |steps| + 1
    && steps[i].ProcessStep? && steps[i].worker == worker
    && worker in trace[i].phases && trace[i].phases[worker].Checked?
    && trace[i].phases[worker].episode.id == episode
    && trace[i + 1].ledger != trace[i].ledger
  }

  // From its pre-check at step k until step j, a worker stays past the check, on this episode.
  ghost predicate InHand(trace: seq<System>, steps: seq<Step>, k: nat, j: nat, worker: string, episode: string) {
    && k < j < |trace| && |trace| == |steps| + 1
    && steps[k].CheckStep? && steps[k].worker == worker
    && forall m | k < m <= j ::
         && worker in trace[m].phases && trace[m].phases[worker].Checked?
         && trace[m].phases[worker].episode.id == episode
  }

  // Between w's pre-check at step k and its commit at step j, another worker commits a row for
  // the same episode, at step i.
  ghost predicate Overtakes(trace: seq<System>, steps: seq<Step>, k: nat, i: nat, j: nat, v: string, w: string,
                            episode: string) {
    && k < i < j && v != w
    && InHand(trace, steps, k, j, w, episode)
    && CommitsAt(trace, steps, i, v, episode)
    && CommitsAt(trace, steps, j, w, episode)
  }

  // What one step does to the ledger and to the workers that are past their check.
  lemma StepLedger(u: Setup, s: System, step: Step, episode: string)
    requires CanStep(u, s, step)
    ensures var t := After(u, s, step);
            && (HasRow(s.ledger, episode) ==> HasRow(t.ledger, episode))
            && (t.ledger != s.ledger ==>
                  && step.ProcessStep? && u.harness.ledgerBound
                  && HasRow(t.ledger, s.phases[step.worker].episode.id)
                  && step.worker in t.phases && !t.phases[step.worker].Checked?)
            && (HasRow(t.ledger, episode) && !HasRow(s.ledger, episode) ==>
                  t.ledger != s.ledger && s.phases[step.worker].episode.id == episode)
  {
    hide HasRow, Next, Settled, Queue.Claimed, Enabled, IsRange, Prechecked;
    if step.ProcessStep? {
      var e := s.phases[step.worker].episode;
      var row := Row(e.id, RecordedAsApproved(step.world.safe));
      OnlyThatRow(s.ledger, row, episode);
      OnlyThatRow(s.ledger, row, e.id);
    }
  }

  lemma OnlyThatRow(ledger: seq<Row>, row: Row, episode: string)
    ensures HasRow(ledger + [row], episode) <==> HasRow(ledger, episode) || row.episode == episode
  {
    var longer := ledger + [row];
    assert forall r :: r in longer <==> r in ledger || r == row;
    if HasRow(ledger, episode) {
      var r :| r in ledger && r.episode == episode;
      assert r in longer;
    }
    if row.episode == episode {
      assert row in longer;
    }
  }

  // A worker is past its check now: it was before, on the same episode, or it has just checked
  // and, where there is a ledger, found no row.
  lemma StepChecked(u: Setup, s: System, step: Step, w: string)
    requires CanStep(u, s, step)
    requires w in After(u, s, step).phases && After(u, s, step).phases[w].Checked?
    ensures var t := After(u, s, step);
            || (w in s.phases && s.phases[w] == t.phases[w])
            || (&& step.CheckStep? && step.worker == w && t.ledger == s.ledger
                && (u.harness.ledgerBound ==> !HasRow(t.ledger, t.phases[w].episode.id)))
  {
    hide HasRow, Next, Settled, Queue.Claimed, Enabled, IsRange;
  }

  // When a worker past its check went through it, and what it found.
  lemma {:induction false} CheckedSince(u: Setup, start: int, trace: seq<System>, steps: seq<Step>, j: nat, w: string)
    returns (k: nat)
    requires IsRun(u, start, trace, steps) && j < |trace|
    requires w in trace[j].phases && trace[j].phases[w].Checked?
    ensures InHand(trace, steps, k, j, w, trace[j].phases[w].episode.id)
    ensures u.harness.ledgerBound ==> !HasRow(trace[k + 1].ledger, trace[j].phases[w].episode.id)
  {
    hide CanStep, After, HasRow;
    assert j > 0 by { assert trace[0] == Start(start); }
    assert CanStep(u, trace[j - 1], steps[j - 1]) && trace[j] == After(u, trace[j - 1], steps[j - 1]);
    StepChecked(u, trace[j - 1], steps[j - 1], w);
    if w in trace[j - 1].phases && trace[j - 1].phases[w] == trace[j].phases[w] {
      k := CheckedSince(u, start, trace, steps, j - 1, w);
    } else {
      k := j - 1;
    }
  }

  // A row that is there now and was not there then was committed in between.
  lemma {:induction false} CommittedBetween(u: Setup, start: int, trace: seq<System>, steps: seq<Step>, k: nat, j: nat,
                                            episode: string)
    returns (i: nat, v: string)
    requires IsRun(u, start, trace, steps) && k <= j < |trace|
    requires !HasRow(trace[k].ledger, episode) && HasRow(trace[j].ledger, episode)
    ensures k <= i < j && CommitsAt(trace, steps, i, v, episode)
    ensures v in trace[i + 1].phases && !trace[i + 1].phases[v].Checked?
    decreases j - k
  {
    hide After, HasRow;
    var before := trace[j - 1];
    assert CanStep(u, before, steps[j - 1]) && trace[j] == After(u, before, steps[j - 1]);
    StepLedger(u, before, steps[j - 1], episode);
    if HasRow(before.ledger, episode) {
      i, v := CommittedBetween(u, start, trace, steps, k, j - 1, episode);
    } else {
      i, v := j - 1, steps[j - 1].worker;
    }
  }

  lemma {:induction false} RowsStay(u: Setup, start: int, trace: seq<System>, steps: seq<Step>, i: nat, j: nat,
                                    episode: string)
    requires IsRun(u, start, trace, steps) && i <= j < |trace| && HasRow(trace[i].ledger, episode)
    ensures HasRow(trace[j].ledger, episode)
    decreases j - i
  {
    hide CanStep, After, HasRow;
    if i < j {
      RowsStay(u, start, trace, steps, i, j - 1, episode);
      StepLedger(u, trace[j - 1], steps[j - 1], episode);
    }
  }

  // A second row means that its writer was overtaken.
  lemma AgainIsOvertaken(u: Setup, start: int, trace: seq<System>, steps: seq<Step>, j: nat)
    returns (k: nat, i: nat, v: string, w: string, episode: string)
    requires IsRun(u, start, trace, steps) && j < |steps| && AppendsAgain(u, trace[j], steps[j])
    ensures Overtakes(trace, steps, k, i, j, v, w, episode)
  {
    w, episode := steps[j].worker, trace[j].phases[steps[j].worker].episode.id;
    assert trace[j + 1] == After(u, trace[j], steps[j]);
    StepLedger(u, trace[j], steps[j], episode);
    hide IsRun, CanStep, After, HasRow;
    k := CheckedSince(u, start, trace, steps, j, w);
    i, v := CommittedBetween(u, start, trace, steps, k + 1, j, episode);
    assert trace[i + 1].phases[w].Checked?;
  }

  // And a worker that is overtaken writes a second row.
  lemma OvertakenIsAgain(u: Setup, start: int, trace: seq<System>, steps: seq<Step>, k: nat, i: nat, j: nat,
                         v: string, w: string, episode: string)
    requires IsRun(u, start, trace, steps) && Overtakes(trace, steps, k, i, j, v, w, episode)
    ensures AppendsAgain(u, trace[j], steps[j])
  {
    hide After, HasRow;
    assert CanStep(u, trace[i], steps[i]) && trace[i + 1] == After(u, trace[i], steps[i]);
    assert CanStep(u, trace[j], steps[j]) && trace[j + 1] == After(u, trace[j], steps[j]);
    StepLedger(u, trace[i], steps[i], episode);
    RowsStay(u, start, trace, steps, i + 1, j, episode);
  }

  // Within the first n steps, some worker was overtaken.
  ghost predicate SomeoneOvertaken(trace: seq<System>, steps: seq<Step>, n: nat) {
    exists k: nat, i: nat, j: nat, v, w, episode | j < n :: Overtakes(trace, steps, k, i, j, v, w, episode)
  }

  /** Every episode has at most one row exactly when no worker is overtaken: there are no steps
      k < i < j such that at k a worker passes its pre-check, at i another worker commits a row for
      the same episode, and at j the first, past its check all the while, commits its own. */
  lemma RowsAreUniqueExactly(u: Setup, start: int, trace: seq<System>, steps: seq<Step>, n: nat)
    requires IsRun(u, start, trace, steps) && n <= |steps|
    ensures OneRowEach(trace[n].ledger) <==> !SomeoneOvertaken(trace, steps, n)
  {
    assert |trace| == |steps| + 1;
    hide IsRun, OneRowEach, AppendsAgain, Overtakes;
    SomeoneAppendsAgain(u, start, trace, steps, n);
    if !OneRowEach(trace[n].ledger) {
      var j :| 0 <= j < n && AppendsAgain(u, trace[j], steps[j]);
      var k, i, v, w, episode := AgainIsOvertaken(u, start, trace, steps, j);
    }
    if k: nat, i: nat, j: nat, v, w, episode :| j < n && Overtakes(trace, steps, k, i, j, v, w, episode) {
      OvertakenIsAgain(u, start, trace, steps, k, i, j, v, w, episode);
    }
  }

  /* -------- when no one is overtaken -------- */

  // No two workers are past the pre-check on one episode.
  ghost predicate AloneOnEach(s: System) {
    forall v, w | v in s.phases && w in s.phases && s.phases[v].Checked? && s.phases[w].Checked? && v != w ::
      s.phases[v].episode.id != s.phases[w].episode.id
  }

  /** In a run where no two workers are between pre-check and append on one episode at once, every
      episode has at most one row, wherever workers crash: between the append and the ack as well. */
  lemma OneRowPerEpisode(u: Setup, start: int, trace: seq<System>, steps: seq<Step>, n: nat)
    requires IsRun(u, start, trace, steps) && n <= |steps|
    requires forall i | 0 <= i < n :: AloneOnEach(trace[i])
    ensures OneRowEach(trace[n].ledger)
  {
    assert |trace| == |steps| + 1;
    hide IsRun, OneRowEach;
    forall k: nat, i: nat, j: nat, v, w, episode | j < n
      ensures !Overtakes(trace, steps, k, i, j, v, w, episode)
    {
      if Overtakes(trace, steps, k, i, j, v, w, episode) {
        NotAlone(trace, steps, k, i, j, v, w, episode);
      }
    }
    hide Overtakes;
    RowsAreUniqueExactly(u, start, trace, steps, n);
  }

  lemma NotAlone(trace: seq<System>, steps: seq<Step>, k: nat, i: nat, j: nat, v: string, w: string, episode: string)
    requires Overtakes(trace, steps, k, i, j, v, w, episode)
    ensures !AloneOnEach(trace[i])
  {
  }

  // Every worker past its pre-check still has its claim: no lease ran out under it.
  ghost predicate Attended(s: System) {
    forall w | w in s.phases && s.phases[w].Checked? ::
      Holds(s.queue, s.phases[w].job.id, w, s.phases[w].job.claimId)
  }

  predicate SameEpisode(p: Reading, q: Reading) {
    p.Reads? && q.Reads? && p.episode.id == q.episode.id
  }

  // No two jobs of the queue are about one episode.
  ghost predicate OneJobEach(u: Setup, queue: State) {
    forall a, b | a in queue.jobs && b in queue.jobs && a != b ::
      !SameEpisode(u.parse(queue.jobs[a].payload), u.parse(queue.jobs[b].payload))
  }

  lemma SameJobSameHolder(s: State, id: string, v: string, k: string, w: string, l: string)
    requires Holds(s, id, v, k) && Holds(s, id, w, l)
    ensures v == w && k == l && id in s.jobs
  {
  }

  lemma OneWorkerEach(u: Setup, s: System, v: string, w: string)
    requires Honest(u, s) && Attended(s) && OneJobEach(u, s.queue)
    requires v in s.phases && w in s.phases && s.phases[v].Checked? && s.phases[w].Checked?
    requires s.phases[v].episode.id == s.phases[w].episode.id
    ensures v == w
  {
    hide Holds, OneJobEach;
    var a, b := s.phases[v].job, s.phases[w].job;
    assert AnswerIsVouched(u, s, s.phases[v]) && HoldsItsJob(s, v, a);
    assert AnswerIsVouched(u, s, s.phases[w]) && HoldsItsJob(s, w, b);
    if a.id != b.id {
      DifferentJobs(u, s.queue, a.id, b.id);
    } else {
      SameJobSameHolder(s.queue, a.id, v, a.claimId, w, b.claimId);
    }
  }

  lemma DifferentJobs(u: Setup, queue: State, a: string, b: string)
    requires OneJobEach(u, queue) && a in queue.jobs && b in queue.jobs && a != b
    ensures !SameEpisode(u.parse(queue.jobs[a].payload), u.parse(queue.jobs[b].payload))
  {
  }

  /** Leases give that: where none runs out between a worker's pre-check and its append, and no two
      jobs carry one episode, there is at most one row. */
  lemma OneRowWhileLeasesHold(u: Setup, start: int, trace: seq<System>, steps: seq<Step>, n: nat)
    requires IsRun(u, start, trace, steps) && n <= |steps|
    requires forall i | 0 <= i < n :: Attended(trace[i]) && OneJobEach(u, trace[i].queue)
    ensures OneRowEach(trace[n].ledger)
  {
    assert |trace| == |steps| + 1;
    hide IsRun, Attended, OneJobEach, OneRowEach, Honest;
    forall i | 0 <= i < n
      ensures AloneOnEach(trace[i])
    {
      RunsAreHonest(u, start, trace, steps, i);
      forall v, w | v in trace[i].phases && w in trace[i].phases
                    && trace[i].phases[v].Checked? && trace[i].phases[w].Checked? && v != w
        ensures trace[i].phases[v].episode.id != trace[i].phases[w].episode.id
      {
        if trace[i].phases[v].episode.id == trace[i].phases[w].episode.id {
          OneWorkerEach(u, trace[i], v, w);
        }
      }
    }
    OneRowPerEpisode(u, start, trace, steps, n);
  }

  /** A redelivered job whose row was committed before the crash is answered as a duplicate and
      writes nothing. */
  lemma RedeliveryIsAbsorbed(u: Setup, s: System, worker: string)
    requires CanStep(u, s, CheckStep(worker, None)) && u.harness.ledgerBound
    requires var e := u.parse(s.phases[worker].job.payload); e.Reads? && HasRow(s.ledger, e.episode.id)
    ensures var t := After(u, s, CheckStep(worker, None));
            t.phases[worker] == Answered(s.phases[worker].job, DuplicateSid) && t.ledger == s.ledger
            && Acks(t.phases[worker].result)
  {
  }

  /* -------- two attempts at once -------- */

  lemma Extend(u: Setup, trace: seq<System>, steps: seq<Step>, step: Step)
    returns (longer: seq<System>, more: seq<Step>)
    requires IsRun(u, 0, trace, steps) && trace != [] && CanStep(u, trace[|trace| - 1], step)
    ensures IsRun(u, 0, longer, more) && longer != [] && longer[|longer| - 1] == After(u, trace[|trace| - 1], step)
  {
    hide CanStep, After;
    longer, more := trace + [After(u, trace[|trace| - 1], step)], steps + [step];
  }

  const BOUND := Harness(1, true)

  // Every payload is about one episode, which is to be governed.
  function OneEpisode(): Setup {
    Setup(DAY, BOUND, payload => Reads(Episode("e", 1)))
  }

  // One job, claimed by w1, which passes its pre-check and stalls until its lease runs out.
  lemma Stalled() returns (trace: seq<System>, steps: seq<Step>)
    ensures IsRun(OneEpisode(), 0, trace, steps) && trace != []
    ensures var s := trace[|trace| - 1];
            && s.ledger == [] && s.issued == {"1"} && s.phases.Keys == {"w1"}
            && s.phases["w1"] == Checked(ClaimedJob("a", "1", "p"), Episode("e", 1))
            && s.queue.now == 30_000 && s.queue.scheduled == map[] && s.queue.pending == []
            && s.queue.processing == map["a" := 30_000] && s.queue.jobs.Keys == {"a"}
            && s.queue.jobs["a"].payload == "p" && s.queue.jobs["a"].attempts == 1 && s.queue.jobs["a"].maxAttempts == 3
  {
    hide IsRun;
    var u := OneEpisode();
    trace, steps := [Start(0)], [];
    assert IsRun(u, 0, trace, steps) by { NoSteps(u); }
    trace, steps := Extend(u, trace, steps, QueueStep(Command.Enqueue("a", "p", 3)));
    trace, steps := Extend(u, trace, steps, ClaimStep("w1", "1", 30_000, 64, []));
    var s := trace[|trace| - 1];
    assert s.phases == map["w1" := Phase.Claimed(ClaimedJob("a", "1", "p"))];
    trace, steps := Extend(u, trace, steps, CheckStep("w1", None));
    trace, steps := Extend(u, trace, steps, QueueStep(Command.Tick(30_000)));
  }

  lemma NoSteps(u: Setup)
    ensures IsRun(u, 0, [Start(0)], [])
  {
  }

  lemma ReapA(q: State)
    requires q.pending == [] && q.processing == map["a" := 30_000] && q.now == 30_000 && "a" in q.jobs
    requires q.jobs["a"].attempts < q.jobs["a"].maxAttempts
    ensures Enabled(DAY, q, Command.Reap(100, ["a"]))
    ensures var t := Reaped(DAY, q, ["a"]).0;
            t.now == q.now && t.scheduled == q.scheduled && t.pending == ["a"]
            && "a" in t.jobs && t.jobs["a"].payload == q.jobs["a"].payload
  {
    hide Trail;
    assert ["a"][..0] == [];
    assert Reaped(DAY, q, ["a"]).0 == ReapedOne(DAY, q, "a").0;
  }

  // The job is reaped, and w2 claims it and passes its own pre-check.
  lemma Overlapping() returns (trace: seq<System>, steps: seq<Step>)
    ensures IsRun(OneEpisode(), 0, trace, steps) && trace != []
    ensures var s := trace[|trace| - 1];
            && s.ledger == [] && s.phases.Keys == {"w1", "w2"}
            && s.phases["w1"] == Checked(ClaimedJob("a", "1", "p"), Episode("e", 1))
            && s.phases["w2"] == Checked(ClaimedJob("a", "2", "p"), Episode("e", 1))
  {
    hide IsRun, Reaped;
    var u := OneEpisode();
    trace, steps := Stalled();
    var q := trace[|trace| - 1].queue;
    ReapA(q);
    trace, steps := Extend(u, trace, steps, QueueStep(Command.Reap(100, ["a"])));
    trace, steps := Extend(u, trace, steps, ClaimStep("w2", "2", 30_000, 64, []));
    assert trace[|trace| - 1].phases["w2"] == Phase.Claimed(ClaimedJob("a", "2", "p"));
    trace, steps := Extend(u, trace, steps, CheckStep("w2", None));
  }

  /** Without that condition the promise fails: a worker that outlives its lease and the worker that
      took the job over both record the episode. */
  lemma OverlapWritesTwice() returns (trace: seq<System>, steps: seq<Step>)
    ensures IsRun(OneEpisode(), 0, trace, steps) && trace != []
    ensures trace[|trace| - 1].ledger == [Row("e", true), Row("e", true)]
  {
    hide IsRun;
    var u, yes := OneEpisode(), World(Judged, Some(Bool(true)), Commits);
    trace, steps := Overlapping();
    trace, steps := Extend(u, trace, steps, ProcessStep("w1", yes));
    trace, steps := Extend(u, trace, steps, ProcessStep("w2", yes));
  }
}
