/** The queue object: its fields are the keys Redis holds under the queue's prefix, and its methods
    change them as the scripts do. Each is proved against the function that specifies the script. */
module QueueStore {
  import opened Wrappers
  import opened Sequences
  import opened Queue

  // One turn of the scan.
  lemma TakenStep(s: State, worker: string, claimId: string, lease: int, scans: nat)
    ensures Taken(s, worker, claimId, lease, scans)
            == if scans == 0 || s.pending == [] then (s, None)
               else
                 var id := s.pending[|s.pending| - 1];
                 if id in s.jobs then (Leased(Popped(s), id, worker, claimId, lease), Some(id))
                 else Taken(Quarantined(Popped(s), id), worker, claimId, lease, scans - 1)
  {
  }

  class TransmissionQueue {
    const config: Config
    var now: int
    var jobs: map<string, Job>
    var pending: seq<string>
    var scheduled: SortedSet
    var processing: SortedSet
    var dead: SortedSet
    var done: SortedSet
    var orphans: seq<string>
    var errors: map<string, seq<ErrorRecord>>
    var counters: Counters

    ghost function Contents(): State
      reads this
    {
      State(now, jobs, pending, scheduled, processing, dead, done, orphans, errors, counters)
    }

    constructor (config: Config, start: int)
      ensures this.config == config && Contents() == Empty(start)
    {
      this.config := config;
      now := start;
      jobs, pending, scheduled, processing, dead, done := map[], [], map[], map[], map[], map[];
      orphans, errors, counters := [], map[], NONE;
    }

    method Enqueue(id: string, payload: string, maxAttempts: int) returns (created: bool, status: Status)
      modifies this
      ensures (Contents(), created, status) == Enqueued(old(Contents()), id, payload, maxAttempts)
    {
      if id in jobs {
        counters := counters.(duplicates := counters.duplicates + 1);
        return false, jobs[id].status;
      }
      jobs := jobs[id := Job(payload, Pending, 0, maxAttempts, now, None, None, None, None, None)];
      pending := [id] + pending;
      counters := counters.(enqueued := counters.enqueued + 1);
      return true, Pending;
    }

    method MoveDue(due: seq<string>, mark: bool)
      modifies this
      ensures Contents() == Promoted(old(Contents()), due, mark)
    {
      for i := 0 to |due|
        invariant Contents() == Promoted(old(Contents()), due[..i], mark)
      {
        var id := due[i];
        scheduled := scheduled - {id};
        pending := [id] + pending;
        if mark && id in jobs {
          jobs := jobs[id := jobs[id].(status := Pending)];
        }
        assert due[..i + 1][..i] == due[..i];
      }
      assert due[..|due|] == due;
    }

    method StampLease(id: string, worker: string, claimId: string, lease: int)
      requires id in jobs
      modifies this`jobs, this`processing
      ensures Contents() == Leased(old(Contents()), id, worker, claimId, lease)
    {
      var attempts, deadline := jobs[id].attempts + 1, now + lease;
      jobs := jobs[id := jobs[id].(status := Processing, attempts := attempts,
                                   lease := Some(Lease(worker, claimId, now, deadline)))];
      processing := processing[id := deadline];
    }

    // due is what ZRANGEBYSCORE answers for the retries to promote first.
    method Claim(worker: string, claimId: string, lease: int, due: seq<string>) returns (claimed: Option<string>)
      modifies this
      ensures (Contents(), claimed) == Claimed(old(Contents()), worker, claimId, lease, due)
    {
      hide Leased, Promoted, Taken;
      MoveDue(due, false);
      ghost var ready := Contents();
      for scan := 0 to MAX_SCAN
        invariant Taken(ready, worker, claimId, lease, MAX_SCAN)
                  == Taken(Contents(), worker, claimId, lease, MAX_SCAN - scan)
      {
        TakenStep(Contents(), worker, claimId, lease, MAX_SCAN - scan);
        if pending == [] {
          return None;
        }
        var id := Pop();
        if id in jobs {
          StampLease(id, worker, claimId, lease);
          return Some(id);
        }
        Quarantine(id);
      }
      TakenStep(Contents(), worker, claimId, lease, 0);
      return None;
    }

    method Pop() returns (id: string)
      requires pending != []
      modifies this`pending
      ensures id == old(pending[|pending| - 1]) && Contents() == Popped(old(Contents()))
    {
      id := pending[|pending| - 1];
      pending := pending[..|pending| - 1];
    }

    method Quarantine(id: string)
      modifies this`orphans, this`counters
      ensures Contents() == Quarantined(old(Contents()), id)
    {
      orphans := [id] + orphans;
      counters := counters.(orphanRefs := counters.orphanRefs + 1);
    }

    // The record of a finished job is kept.
    method Complete(id: string, result: Option<string>)
      requires id in jobs
      modifies this
      ensures Contents() == Completed(old(Contents()), id, result)
    {
      processing := processing - {id};
      var job := jobs[id].(status := Done, lease := None, completedAt := Some(now));
      jobs := jobs[id := if result.Some? then job.(result := result) else job];
      done := done[id := now];
      counters := counters.(completed := counters.completed + 1);
    }

    method Ack(id: string, worker: string, claimId: string, result: Option<string>) returns (outcome: Outcome)
      modifies this
      ensures (Contents(), outcome) == Acked(config, old(Contents()), id, worker, claimId, result)
    {
      outcome := Owner(id, worker, claimId);
      if outcome != OK {
        if outcome == STALE && jobs[id].status == Done {
          return GONE;
        }
        counters := counters.(staleAcks := counters.staleAcks + 1);
        return;
      }
      if config.keep > 0 {
        Complete(id, result);
        PruneDone(now - config.keep);
      } else {
        processing := processing - {id};
        jobs := jobs - {id};
        errors := errors - {id};
        counters := counters.(completed := counters.completed + 1);
      }
    }

    method PruneDone(upTo: int)
      modifies this`done
      ensures Contents() == Pruned(old(Contents()), upTo)
    {
      done := Above(done, upTo);
    }

    method Owner(id: string, worker: string, claimId: string) returns (owner: Outcome)
      ensures owner == OwnerCheck(Contents(), id, worker, claimId)
    {
      if id !in jobs {
        return GONE;
      }
      var job := jobs[id];
      if job.status != Processing || job.lease.None?
         || job.lease.value.worker != worker || job.lease.value.claimId != claimId {
        return STALE;
      }
      return OK;
    }

    method RecordFailure(id: string, reason: string, worker: string)
      requires id in jobs
      modifies this`errors
      ensures Contents() == RecordError(config, old(Contents()), id, reason, worker)
    {
      var trail := if id in errors then errors[id] else [];
      errors := errors[id := Trail(trail, ErrorRecord(jobs[id].attempts, reason, worker, now), config.errorKeep)];
    }

    method Fail(id: string, worker: string, claimId: string, reason: string, retryable: bool, jitter: nat)
      returns (outcome: Outcome)
      modifies this
      ensures (Contents(), outcome) == Failed(config, old(Contents()), id, worker, claimId, reason, retryable, jitter)
    {
      hide RecordError, Buried, Rescheduled, Backoff;
      outcome := Owner(id, worker, claimId);
      if outcome != OK {
        if outcome == STALE && jobs[id].status == Done {
          return GONE;
        }
        counters := counters.(staleFails := counters.staleFails + 1);
        return;
      }
      RecordFailure(id, reason, worker);
      if !retryable || jobs[id].attempts >= jobs[id].maxAttempts {
        Bury(id, reason);
        return DEAD;
      }
      Reschedule(id, Backoff(config, jobs[id].attempts, jitter));
      return SCHEDULED;
    }

    // The job leaves processing for good.
    method Bury(id: string, reason: string)
      requires id in jobs
      modifies this
      ensures Contents() == Buried(old(Contents()), id, reason)
    {
      processing := processing - {id};
      jobs := jobs[id := jobs[id].(status := Dead, lease := None,
                                   death := Some(Death(now, reason, reason == UNCLASSIFIED)))];
      dead := dead[id := now];
      counters := counters.(dead := counters.dead + 1);
    }

    // The job leaves processing until its next retry.
    method Reschedule(id: string, backoff: int)
      requires id in jobs
      modifies this
      ensures Contents() == Rescheduled(old(Contents()), id, backoff)
    {
      processing := processing - {id};
      jobs := jobs[id := jobs[id].(status := Scheduled, lease := None, nextRetryAt := Some(now + backoff))];
      scheduled := scheduled[id := now + backoff];
      counters := counters.(retries := counters.retries + 1);
    }

    // The job goes from processing back in line.
    method Return(id: string)
      requires id in jobs
      modifies this
      ensures Contents() == Returned(old(Contents()), id)
    {
      processing := processing - {id};
      jobs := jobs[id := jobs[id].(status := Pending, lease := None)];
      pending := [id] + pending;
    }

    method Heartbeat(id: string, worker: string, claimId: string, lease: int) returns (outcome: Outcome)
      modifies this
      ensures (Contents(), outcome) == Renewed(old(Contents()), id, worker, claimId, lease)
    {
      outcome := Owner(id, worker, claimId);
      if outcome != OK {
        if outcome == STALE && jobs[id].status == Done {
          return GONE;
        }
        counters := counters.(staleHeartbeats := counters.staleHeartbeats + 1);
        return;
      }
      var held := jobs[id].lease.value.(deadline := now + lease);
      jobs := jobs[id := jobs[id].(lease := Some(held))];
      processing := processing[id := now + lease];
      counters := counters.(heartbeats := counters.heartbeats + 1);
    }

    method PromoteDue(due: seq<string>) returns (promoted: nat)
      modifies this
      ensures Contents() == Promoted(old(Contents()), due, true) && promoted == |due|
    {
      MoveDue(due, true);
      return |due|;
    }

    method ReapOne(id: string) returns (disposition: Disposition)
      modifies this
      ensures (Contents(), disposition) == ReapedOne(config, old(Contents()), id)
    {
      hide RecordError, Buried, Returned;
      if id !in jobs {
        processing := processing - {id};
        Quarantine(id);
        return ToOrphans;
      }
      var job := jobs[id];
      var worker := if job.lease.Some? then job.lease.value.worker else "unknown";
      RecordFailure(id, PROCESS_CRASH, worker);
      if job.attempts >= job.maxAttempts {
        Bury(id, PROCESS_CRASH);
        disposition := ToDead;
      } else {
        Return(id);
        disposition := ToPending;
      }
      counters := counters.(reaped := counters.reaped + 1);
    }

    // expired is what ZRANGEBYSCORE answers for the leases that have run out.
    method ReapExpired(expired: seq<string>) returns (report: seq<(string, Disposition)>)
      modifies this
      ensures (Contents(), report) == Reaped(config, old(Contents()), expired)
    {
      report := [];
      for i := 0 to |expired|
        invariant (Contents(), report) == Reaped(config, old(Contents()), expired[..i])
      {
        var disposition := ReapOne(expired[i]);
        report := report + [(expired[i], disposition)];
        assert expired[..i + 1][..i] == expired[..i];
      }
      assert expired[..|expired|] == expired;
    }

    method RequeueFromDlq(id: string) returns (outcome: Outcome)
      modifies this
      ensures (Contents(), outcome) == Requeued(old(Contents()), id)
    {
      if id !in jobs || jobs[id].status == Done {
        return GONE;
      }
      if jobs[id].status != Dead {
        return STALE;
      }
      dead := dead - {id};
      jobs := jobs[id := jobs[id].(status := Pending, attempts := 0, death := None)];
      pending := [id] + pending;
      counters := counters.(requeued := counters.requeued + 1);
      return OK;
    }

    // Whether every member of a structure has a job hash.
    method AllHashed(members: set<string>, jobIds: set<string>) returns (ok: bool)
      ensures ok <==> members <= jobIds
    {
      ok := true;
      var left := members;
      while left != {}
        invariant left <= members
        invariant ok <==> members - left <= jobIds
      {
        var id :| id in left;
        left := left - {id};
        if id !in jobIds {
          ok := false;
        }
      }
    }

    method PlacesOf(id: string, pendingSet: set<string>) returns (places: set<Status>)
      requires pendingSet == set x | x in pending
      ensures places == Places(Contents(), id)
    {
      places := {};
      if id in pendingSet {
        places := places + {Pending};
      }
      if id in scheduled {
        places := places + {Scheduled};
      }
      if id in processing {
        places := places + {Processing};
      }
      if id in dead {
        places := places + {Dead};
      }
      if id in done {
        places := places + {Done};
      }
    }

    // Whether every job hash is in exactly the structure its status names.
    method AllPlaced(pendingSet: set<string>) returns (ok: bool, checked: nat)
      requires pendingSet == set id | id in pending
      ensures ok <==> forall id | id in jobs :: Places(Contents(), Tail(id)) == {jobs[id].status}
      ensures checked == |jobs|
    {
      hide Tail, Places;
      ok, checked := true, 0;
      var keys := jobs.Keys;
      while keys != {}
        invariant keys <= jobs.Keys && checked + |keys| == |jobs.Keys|
        invariant ok <==> forall id | id in jobs && id !in keys :: Places(Contents(), Tail(id)) == {jobs[id].status}
      {
        var key :| key in keys;
        var places := PlacesOf(Tail(key), pendingSet);
        if places != {jobs[key].status} {
          ok := false;
        }
        checked, keys := checked + 1, keys - {key};
      }
    }

    // Whether every member of every structure has a job hash.
    method NothingDangles(pendingSet: set<string>) returns (ok: bool)
      requires pendingSet == set id | id in pending
      ensures ok <==> pendingSet <= JobIds(Contents()) && scheduled.Keys <= JobIds(Contents())
                      && processing.Keys <= JobIds(Contents()) && dead.Keys <= JobIds(Contents())
                      && done.Keys <= JobIds(Contents())
    {
      var jobIds := set id | id in jobs :: Tail(id);
      assert jobIds == JobIds(Contents());
      hide JobIds;
      var structures := [scheduled.Keys, processing.Keys, dead.Keys, done.Keys, pendingSet];
      ok := true;
      for i := 0 to |structures|
        invariant ok <==> forall j | 0 <= j < i :: structures[j] <= jobIds
      {
        var hashed := AllHashed(structures[i], jobIds);
        ok := ok && hashed;
      }
      assert ok <==> structures[0] <= jobIds && structures[1] <= jobIds && structures[2] <= jobIds
                     && structures[3] <= jobIds && structures[4] <= jobIds;
    }

    // The judgement, once the done set has been pruned.
    method Judge() returns (ok: bool, checked: nat)
      ensures ok <==> Clean(Contents())
      ensures checked == |jobs|
    {
      hide Places, Tail, NoDuplicates, JobIds;
      var pendingSet := set id | id in pending;
      DistinctBySize(pending);
      ok := |pending| == |pendingSet|;
      var placed, hashed: bool;
      placed, checked := AllPlaced(pendingSet);
      hashed := NothingDangles(pendingSet);
      ok := ok && placed && hashed;
    }

    method VerifyInvariants() returns (ok: bool, checked: nat)
      modifies this`done
      ensures Contents() == Audited(config, old(Contents()))
      ensures ok <==> Clean(Contents())
      ensures checked == |jobs|
    {
      hide Clean;
      if config.keep > 0 {
        PruneDone(now - Grace(config));
      }
      ok, checked := Judge();
    }
  }
}
