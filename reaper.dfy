/** The periodic sweep that times out silent workers and hands their
    running jobs back to the queue. Timestamps are whole seconds. */
module Reaper {
  import opened Common
  import opened Store

  /** A worker the sweep selects: WORKING, with a heartbeat strictly before
      the threshold. A NULL heartbeat never compares below anything. */
  predicate IsExpired(w: Worker, threshold: int)
  {
    w.status == Working && w.lastHeartbeat.Some? && w.lastHeartbeat.value < threshold
  }

  /** The ids of the workers the sweep selects. */
  function ExpiredIds(workers: map<int, Worker>, threshold: int): set<int>
  {
    set id | id in workers && IsExpired(workers[id], threshold)
  }

  /** A job the sweep hands back: RUNNING under one of the expired workers. */
  predicate Reclaimable(j: Job, expired: set<int>)
  {
    j.status == Running && j.workerId.Some? && j.workerId.value in expired
  }

  /** A job put back in the queue, unassigned. */
  function Release(j: Job): Job
  {
    j.(status := Pending, workerId := None)
  }

  /** The worker table after the expired workers are marked TIMED_OUT. */
  function TimeOut(workers: map<int, Worker>, expired: set<int>): (r: map<int, Worker>)
  {
    map id | id in workers :: if id in expired then workers[id].(status := TimedOut) else workers[id]
  }

  /** The job table after every job that ran on an expired worker is released. */
  function Reclaim(jobs: map<int, Job>, expired: set<int>): (r: map<int, Job>)
  {
    map id | id in jobs :: if Reclaimable(jobs[id], expired) then Release(jobs[id]) else jobs[id]
  }

  /** One sweep, run inside the caller's transaction: the threshold is now
      minus the expiration period. */
  method CleanupExpiredWorkersAndJobs(tx: Session, now: int, expirationSeconds: int)
    modifies tx`workers, tx`jobs
    ensures tx.workers == TimeOut(old(tx.workers), ExpiredIds(old(tx.workers), now - expirationSeconds))
    ensures tx.jobs == Reclaim(old(tx.jobs), ExpiredIds(old(tx.workers), now - expirationSeconds))
  {
    var threshold := now - expirationSeconds;
    var expired := ExpiredIds(tx.workers, threshold);
    if expired == {} {
      TimeOutNothing(tx.workers);
      ReclaimNothing(tx.jobs);
      return;
    }
    MarkTimedOut(tx, expired);
    ReleaseJobsOf(tx, expired);
  }

  /** The loop that marks every selected worker TIMED_OUT. */
  method MarkTimedOut(tx: Session, expired: set<int>)
    requires expired <= tx.workers.Keys
    modifies tx`workers
    ensures tx.workers == TimeOut(old(tx.workers), expired)
  {
    var workers := TimeOutSelected(tx.workers, expired);
    tx.workers := workers;
  }

  /** The body of MarkTimedOut on the workers table as a value. */
  method TimeOutSelected(workers0: map<int, Worker>, expired: set<int>) returns (workers: map<int, Worker>)
    requires expired <= workers0.Keys
    ensures workers == TimeOut(workers0, expired)
  {
    workers := workers0;
    var todo := expired;
    while todo != {}
      invariant todo <= expired
      invariant workers.Keys == workers0.Keys
      invariant forall id :: id in workers0 ==>
        workers[id] == if id in expired - todo then workers0[id].(status := TimedOut) else workers0[id]
      decreases |todo|
    {
      ghost var some := Pick(todo);
      var id :| id in todo;
      workers := workers[id := workers[id].(status := TimedOut)];
      todo := todo - {id};
    }
    assert expired - todo == expired;
    forall id | id in workers ensures workers[id] == TimeOut(workers0, expired)[id] {
    }
    MapsEqual(workers, TimeOut(workers0, expired));
  }

  /** The query for the RUNNING jobs of the expired workers, and the loop
      that puts each of them back as PENDING with no worker. */
  method ReleaseJobsOf(tx: Session, expired: set<int>)
    modifies tx`jobs
    ensures tx.jobs == Reclaim(old(tx.jobs), expired)
  {
    var jobs := ReleaseStale(tx.jobs, expired);
    tx.jobs := jobs;
  }

  /** The body of ReleaseJobsOf on the jobs table as a value. */
  method ReleaseStale(jobs0: map<int, Job>, expired: set<int>) returns (jobs: map<int, Job>)
    ensures jobs == Reclaim(jobs0, expired)
  {
    jobs := jobs0;
    var stale := set id | id in jobs && Reclaimable(jobs[id], expired);
    var todo := stale;
    while todo != {}
      invariant todo <= stale <= jobs0.Keys
      invariant jobs.Keys == jobs0.Keys
      invariant forall id :: id in jobs0 ==>
        jobs[id] == if id in stale - todo then Release(jobs0[id]) else jobs0[id]
      decreases |todo|
    {
      ghost var some := Pick(todo);
      var id :| id in todo;
      jobs := jobs[id := Release(jobs[id])];
      todo := todo - {id};
    }
    assert stale - todo == stale;
    forall id | id in jobs ensures jobs[id] == Reclaim(jobs0, expired)[id] {
    }
    MapsEqual(jobs, Reclaim(jobs0, expired));
  }

  lemma TimeOutNothing(workers: map<int, Worker>)
    ensures TimeOut(workers, {}) == workers
  {
    var r := TimeOut(workers, {});
    assert r.Keys == workers.Keys;
    forall id | id in workers ensures r[id] == workers[id] {
    }
  }

  lemma ReclaimNothing(jobs: map<int, Job>)
    ensures Reclaim(jobs, {}) == jobs
  {
    var r := Reclaim(jobs, {});
    assert r.Keys == jobs.Keys;
    forall id | id in jobs ensures r[id] == jobs[id] {
      assert !Reclaimable(jobs[id], {});
    }
  }

  /** Only WORKING workers whose last heartbeat is strictly older than the
      threshold are selected: a waiting or finished worker, a worker that
      never sent a heartbeat, and one whose heartbeat is exactly at the
      threshold all survive the sweep. */
  lemma NeverReaped(workers: map<int, Worker>, threshold: int, id: int)
    requires id in workers
    requires workers[id].status != Working || workers[id].lastHeartbeat.None? ||
             workers[id].lastHeartbeat.value >= threshold
    ensures id !in ExpiredIds(workers, threshold)
    ensures TimeOut(workers, ExpiredIds(workers, threshold))[id] == workers[id]
  {
  }

  /** The sweep changes expired workers' status to TIMED_OUT and nothing
      else: no row is added or removed, and every other row is untouched. */
  lemma SweepTouchesOnlyExpired(workers: map<int, Worker>, threshold: int)
    ensures var after := TimeOut(workers, ExpiredIds(workers, threshold));
      && after.Keys == workers.Keys
      && (forall id :: id in workers && after[id] != workers[id] ==>
            IsExpired(workers[id], threshold) && after[id] == workers[id].(status := TimedOut))
      && (forall id :: id in after ==> !IsExpired(after[id], threshold))
  {
  }

  /** After the sweep no job is still RUNNING under a worker it timed out,
      and every job that changed was one of those, now PENDING and unassigned. */
  lemma ReclaimFreesExpiredJobs(jobs: map<int, Job>, expired: set<int>)
    ensures var after := Reclaim(jobs, expired);
      && after.Keys == jobs.Keys
      && (forall id :: id in after ==> !Reclaimable(after[id], expired))
      && (forall id :: id in jobs && after[id] != jobs[id] ==>
            Reclaimable(jobs[id], expired) && after[id].status == Pending && after[id].workerId.None?)
  {
  }

  /** The job table's invariant — a job has a worker exactly when it is
      RUNNING — survives the sweep. */
  ghost predicate AssignmentConsistent(jobs: map<int, Job>)
  {
    forall id :: id in jobs ==> (jobs[id].status == Running <==> jobs[id].workerId.Some?)
  }

  lemma ReclaimPreservesAssignment(jobs: map<int, Job>, expired: set<int>)
    requires AssignmentConsistent(jobs)
    ensures AssignmentConsistent(Reclaim(jobs, expired))
  {
  }

  /** A second sweep at the same moment finds nothing to do. */
  lemma {:induction false} SweepIdempotent(workers: map<int, Worker>, jobs: map<int, Job>, threshold: int)
    ensures var expired := ExpiredIds(workers, threshold);
      var workers1 := TimeOut(workers, expired);
      var jobs1 := Reclaim(jobs, expired);
      && ExpiredIds(workers1, threshold) == {}
      && TimeOut(workers1, ExpiredIds(workers1, threshold)) == workers1
      && Reclaim(jobs1, ExpiredIds(workers1, threshold)) == jobs1
  {
    var expired := ExpiredIds(workers, threshold);
    var workers1 := TimeOut(workers, expired);
    var jobs1 := Reclaim(jobs, expired);
    SweepTouchesOnlyExpired(workers, threshold);
    assert ExpiredIds(workers1, threshold) == {} by {
      forall id | id in workers1 ensures !IsExpired(workers1[id], threshold) {
      }
      assert forall id :: id !in ExpiredIds(workers1, threshold);
    }
    TimeOutNothing(workers1);
    ReclaimNothing(jobs1);
  }

  /** When nobody is expired the sweep leaves both tables as they were. */
  lemma QuietSweep(workers: map<int, Worker>, jobs: map<int, Job>, threshold: int)
    requires forall id :: id in workers ==> !IsExpired(workers[id], threshold)
    ensures TimeOut(workers, ExpiredIds(workers, threshold)) == workers
    ensures Reclaim(jobs, ExpiredIds(workers, threshold)) == jobs
  {
    assert forall id :: id !in ExpiredIds(workers, threshold);
    assert ExpiredIds(workers, threshold) == {};
    TimeOutNothing(workers);
    ReclaimNothing(jobs);
  }
}
