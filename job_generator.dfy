/** Job generation: one PENDING job for every translation run of a
    worker's namespace that has no job for the worker's metric yet. */
module JobGenerator {
  import opened Common
  import opened Store

  const DefaultQueue := "default"
  const DefaultPriority := 1

  /** Some job of the table scores run runId with the given metric. A NULL
      metric matches only a NULL metric (the comparison is rendered as IS NULL). */
  predicate HasJobFor(jobs: map<int, Job>, runId: int, metric: Option<string>)
  {
    exists id :: id in jobs && jobs[id].runId == runId && jobs[id].metric == metric
  }

  /** The outer join of runs with the jobs for metric, keeping the runs of
      the namespace that found no job. */
  function RunsWithoutJobs(runs: map<int, TranslationRun>, jobs: map<int, Job>, namespaceId: int, metric: Option<string>): set<int>
  {
    set id | id in runs && runs[id].namespaceId == namespaceId && !HasJobFor(jobs, id, metric)
  }

  /** The job created for run runId on behalf of worker w. */
  function NewJob(id: int, w: Worker, runId: int): Job
  {
    Job(id, w.namespaceId, w.userId, runId, None, DefaultQueue, DefaultPriority, Pending, w.metric, map[])
  }

  /** The set of run ids the jobs of created are for. */
  function RunIdsOf(created: seq<Job>): set<int>
  {
    set k | 0 <= k < |created| :: created[k].runId
  }

  /** after is before plus the jobs of created, one fresh row per job-less
      run of w's namespace and metric, and nothing else. */
  ghost predicate IsGeneration(before: map<int, Job>, after: map<int, Job>, runs: map<int, TranslationRun>, w: Worker, created: seq<Job>)
  {
    && (forall id :: id in before ==> id in after && after[id] == before[id])
    && (forall id :: id in after && id !in before ==> exists k :: 0 <= k < |created| && created[k].id == id)
    && (forall k :: 0 <= k < |created| ==>
          created[k].id !in before && created[k].id in after && after[created[k].id] == created[k] &&
          created[k] == NewJob(created[k].id, w, created[k].runId))
    && (forall k, l :: 0 <= k < l < |created| ==> created[k].runId != created[l].runId)
    && RunIdsOf(created) == RunsWithoutJobs(runs, before, w.namespaceId, w.metric)
  }

  /** Creates and adds the jobs for worker w, returning them in creation order. */
  method CreateNewJobs(tx: Session, w: Worker) returns (created: seq<Job>)
    requires tx.Valid()
    modifies tx`jobs, tx`nextId
    ensures tx.Valid()
    ensures IsGeneration(old(tx.jobs), tx.jobs, tx.runs, w, created)
  {
    var jobs, next;
    jobs, next, created := AddJobs(tx.jobs, tx.nextId, tx.runs, w);
    tx.jobs, tx.nextId := jobs, next;
  }

  /** The loop of CreateNewJobs over the job table, with next the next
      free id. */
  method AddJobs(jobs0: map<int, Job>, next0: int, runs: map<int, TranslationRun>, w: Worker)
    returns (jobs: map<int, Job>, next: int, created: seq<Job>)
    requires forall id :: id in jobs0 ==> jobs0[id].id == id && id < next0
    ensures next >= next0
    ensures forall id :: id in jobs ==> jobs[id].id == id && id < next
    ensures IsGeneration(jobs0, jobs, runs, w, created)
  {
    var todo := RunsWithoutJobs(runs, jobs0, w.namespaceId, w.metric);
    ghost var target := todo;
    jobs, next := jobs0, next0;
    created := [];
    assert RunIdsOf(created) == {} by {
      assert forall x :: x !in RunIdsOf(created);
    }
    while todo != {}
      invariant todo <= target
      invariant Appended(jobs0, next0, jobs, next, w, created)
      invariant Covered(target, todo, created)
      decreases |todo|
    {
      ghost var some := Pick(todo);
      var runId :| runId in todo;
      var job := NewJob(next, w, runId);
      AppendedStep(jobs0, next0, jobs, next, w, created, runId);
      CoveredStep(target, todo, created, job);
      jobs := jobs[job.id := job];
      next := next + 1;
      created := created + [job];
      todo := todo - {runId};
    }
    assert target - todo == target;
    AppendedIsGeneration(jobs0, next0, jobs, next, runs, w, created);
  }

  /** created holds one job for each run of target that is no longer in
      todo, and no two for the same run. */
  ghost predicate Covered(target: set<int>, todo: set<int>, created: seq<Job>)
  {
    && todo <= target
    && (forall k :: 0 <= k < |created| ==> created[k].runId !in todo)
    && (forall k, l :: 0 <= k < l < |created| ==> created[k].runId != created[l].runId)
    && RunIdsOf(created) == target - todo
  }

  lemma CoveredStep(target: set<int>, todo: set<int>, created: seq<Job>, job: Job)
    requires Covered(target, todo, created) && job.runId in todo
    ensures Covered(target, todo - {job.runId}, created + [job])
  {
    RunIdsOfSnoc(created, job);
    var created' := created + [job];
    assert forall k :: 0 <= k < |created| ==> created'[k] == created[k];
  }

  /** jobs is jobs0 plus the jobs of created, numbered from next0 on. */
  ghost predicate Appended(jobs0: map<int, Job>, next0: int, jobs: map<int, Job>, next: int, w: Worker, created: seq<Job>)
  {
    && next == next0 + |created|
    && (forall id :: id in jobs0 ==> jobs0[id].id == id && id < next0)
    && (forall id :: id in jobs ==> jobs[id].id == id && id < next)
    && (forall id :: id in jobs0 ==> id in jobs && jobs[id] == jobs0[id])
    && (forall id :: id in jobs ==> id in jobs0 || next0 <= id < next)
    && (forall k :: 0 <= k < |created| ==>
          created[k].id == next0 + k && created[k].id in jobs && jobs[created[k].id] == created[k] &&
          created[k] == NewJob(created[k].id, w, created[k].runId))
  }

  lemma AppendedStep(jobs0: map<int, Job>, next0: int, jobs: map<int, Job>, next: int, w: Worker, created: seq<Job>, runId: int)
    requires Appended(jobs0, next0, jobs, next, w, created)
    ensures var job := NewJob(next, w, runId);
      Appended(jobs0, next0, jobs[next := job], next + 1, w, created + [job])
  {
    var job := NewJob(next, w, runId);
    var jobs', created' := jobs[next := job], created + [job];
    forall k | 0 <= k < |created'|
      ensures created'[k].id == next0 + k && created'[k].id in jobs' && jobs'[created'[k].id] == created'[k] &&
              created'[k] == NewJob(created'[k].id, w, created'[k].runId)
    {
      if k < |created| {
        assert created'[k] == created[k];
      }
    }
  }

  lemma AppendedIsGeneration(jobs0: map<int, Job>, next0: int, jobs: map<int, Job>, next: int, runs: map<int, TranslationRun>, w: Worker, created: seq<Job>)
    requires Appended(jobs0, next0, jobs, next, w, created)
    requires forall k, l :: 0 <= k < l < |created| ==> created[k].runId != created[l].runId
    requires RunIdsOf(created) == RunsWithoutJobs(runs, jobs0, w.namespaceId, w.metric)
    ensures next >= next0
    ensures forall id :: id in jobs ==> jobs[id].id == id && id < next
    ensures IsGeneration(jobs0, jobs, runs, w, created)
  {
    forall id | id in jobs && id !in jobs0
      ensures exists k :: 0 <= k < |created| && created[k].id == id
    {
      assert created[id - next0].id == id;
    }
  }

  lemma RunIdsOfSnoc(init: seq<Job>, last: Job)
    ensures RunIdsOf(init + [last]) == RunIdsOf(init) + {last.runId}
  {
    var c := init + [last];
    forall x | x in RunIdsOf(c) ensures x in RunIdsOf(init) + {last.runId} {
      var k :| 0 <= k < |c| && c[k].runId == x;
      if k < |init| {
        assert init[k] == c[k];
      }
    }
    forall x | x in RunIdsOf(init) + {last.runId} ensures x in RunIdsOf(c) {
      if x == last.runId {
        assert c[|init|] == last;
      } else {
        var k :| 0 <= k < |init| && init[k].runId == x;
        assert c[k] == init[k];
      }
    }
    assert forall x :: x in RunIdsOf(c) <==> x in RunIdsOf(init) + {last.runId};
  }

  /** As many jobs are created as there are job-less runs. */
  lemma GenerationCount(before: map<int, Job>, after: map<int, Job>, runs: map<int, TranslationRun>, w: Worker, created: seq<Job>)
    requires IsGeneration(before, after, runs, w, created)
    ensures |created| == |RunsWithoutJobs(runs, before, w.namespaceId, w.metric)|
  {
    DistinctRunIdsCount(created);
  }

  lemma {:induction false} DistinctRunIdsCount(created: seq<Job>)
    requires forall k, l :: 0 <= k < l < |created| ==> created[k].runId != created[l].runId
    ensures |RunIdsOf(created)| == |created|
    decreases |created|
  {
    if created == [] {
      assert forall x :: x !in RunIdsOf(created);
      assert RunIdsOf(created) == {};
    } else {
      var init := created[..|created| - 1];
      var last := created[|created| - 1];
      DistinctRunIdsCount(init);
      assert init + [last] == created;
      RunIdsOfSnoc(init, last);
      assert last.runId !in RunIdsOf(init);
    }
  }

  /** After a generation every run of the namespace has a job for the
      worker's metric, so generating again at once creates nothing. */
  lemma {:induction false} GenerationIdempotent(before: map<int, Job>, after: map<int, Job>, runs: map<int, TranslationRun>, w: Worker, created: seq<Job>)
    requires IsGeneration(before, after, runs, w, created)
    ensures RunsWithoutJobs(runs, after, w.namespaceId, w.metric) == {}
  {
    forall id | id in runs && runs[id].namespaceId == w.namespaceId
      ensures HasJobFor(after, id, w.metric)
    {
      if HasJobFor(before, id, w.metric) {
        var j :| j in before && before[j].runId == id && before[j].metric == w.metric;
        assert after[j] == before[j];
      } else {
        assert id in RunIdsOf(created);
        var k :| 0 <= k < |created| && created[k].runId == id;
        assert after[created[k].id] == created[k];
      }
    }
    assert forall id :: id !in RunsWithoutJobs(runs, after, w.namespaceId, w.metric);
  }

  /** A generation creates jobs only for runs of the worker's namespace,
      each PENDING, unassigned, in the default queue at the default
      priority, carrying the worker's metric. */
  lemma GenerationStaysInNamespace(before: map<int, Job>, after: map<int, Job>, runs: map<int, TranslationRun>, w: Worker, created: seq<Job>)
    requires IsGeneration(before, after, runs, w, created)
    ensures forall k :: 0 <= k < |created| ==>
      && created[k].runId in runs && runs[created[k].runId].namespaceId == w.namespaceId
      && created[k].namespaceId == w.namespaceId && created[k].userId == w.userId
      && created[k].status == Pending && created[k].workerId.None?
      && created[k].queue == DefaultQueue && created[k].priority == DefaultPriority
      && created[k].metric == w.metric && created[k].payload == map[]
  {
    forall k | 0 <= k < |created|
      ensures created[k].runId in runs && runs[created[k].runId].namespaceId == w.namespaceId
    {
      assert created[k].runId in RunIdsOf(created);
    }
  }

  /** A job for another metric does not make a run count as served. */
  lemma OtherMetricDoesNotServe(runs: map<int, TranslationRun>, jobs: map<int, Job>, id: int, j: Job, ns: int, metric: Option<string>)
    requires id in runs && runs[id].namespaceId == ns && !HasJobFor(jobs, id, metric)
    requires j.id !in jobs && j.metric != metric
    ensures id in RunsWithoutJobs(runs, jobs[j.id := j], ns, metric)
  {
    assert forall k :: k in jobs[j.id := j] && k != j.id ==> k in jobs && jobs[j.id := j][k] == jobs[k];
  }
}
