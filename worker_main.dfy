/** The worker's main process: turning assigned jobs into examples, the
    report body built from a result, the authorization header, and the
    bookkeeping of the main loop (jobs in flight, consecutive failures,
    one-shot and persistent mode). The server's answers, the health of the
    subprocess and what the result queue yields are the events that drive
    the loop. */
module WorkerMain {
  import opened Common
  import opened Supervisor
  import Auth
  import Text

  /** A segment of an assigned job; ref is None when the key is absent. */
  datatype JobSegment = JobSegment(src: string, tgt: string, ref: Option<string>)

  /** An assigned job as the server sends it. */
  datatype Job = Job(id: int, segments: seq<JobSegment>)

  const MaxConsecutiveFailures := 3

  /** job_to_example: the job's id and segments, in order, with the
      languages fixed to English and Czech. */
  function JobToExample(job: Job): (e: WorkerExample)
    ensures e.jobId == job.id && e.srcLang == "English" && e.tgtLang == "Czech"
    ensures |e.segments| == |job.segments|
    ensures forall i :: 0 <= i < |e.segments| ==>
      e.segments[i] == ExampleSegment(job.segments[i].src, job.segments[i].tgt, job.segments[i].ref)
  {
    WorkerExample(job.id,
      seq(|job.segments|, i requires 0 <= i < |job.segments| =>
        ExampleSegment(job.segments[i].src, job.segments[i].tgt, job.segments[i].ref)),
      "English", "Czech")
  }

  /** The examples of a list of jobs, as they are put on the queue. */
  function Examples(jobs: seq<Job>): (r: seq<Message<WorkerExample>>)
    ensures |r| == |jobs|
    ensures forall i :: 0 <= i < |r| ==> r[i] == Item(JobToExample(jobs[i]))
  {
    seq(|jobs|, i requires 0 <= i < |jobs| => Item(JobToExample(jobs[i])))
  }

  datatype DatasetMetric = DatasetMetric(name: string, higherIsBetter: bool, score: real)
  datatype SegmentMetric = SegmentMetric(name: string, higherIsBetter: bool, scores: seq<real>, custom: Option<seq<map<string, string>>>)

  /** The JSON body of a result report. */
  datatype JobResultRequest = JobResultRequest(jobId: int, datasetLevel: seq<DatasetMetric>, segmentLevel: seq<SegmentMetric>)

  /** The report body of a result: a dataset-level entry only if there is
      a dataset score, a segment-level entry only if there are segment
      scores, and custom data only if there is a non-empty list of it. */
  function ReportBody(result: ExampleResult): (r: JobResultRequest)
    ensures r.jobId == result.jobId
    ensures |r.datasetLevel| == (if result.datasetScore.Some? then 1 else 0)
    ensures |r.segmentLevel| == (if result.segmentScores.Some? then 1 else 0)
    ensures forall m :: m in r.datasetLevel ==> m.name == result.name && m.higherIsBetter == result.higherIsBetter
    ensures forall m :: m in r.segmentLevel ==>
      && m.name == result.name && m.higherIsBetter == result.higherIsBetter
      && (m.custom.None? <==> result.segmentCustom.None? || result.segmentCustom.value == [])
  {
    var dataset := if result.datasetScore.None? then []
      else [DatasetMetric(result.name, result.higherIsBetter, result.datasetScore.value)];
    var custom := if result.segmentCustom.None? || result.segmentCustom.value == [] then None else result.segmentCustom;
    var segment := if result.segmentScores.None? then []
      else [SegmentMetric(result.name, result.higherIsBetter, result.segmentScores.value, custom)];
    JobResultRequest(result.jobId, dataset, segment)
  }

  /** The dataset score a report body carries, if any. */
  function ReportedDatasetScore(body: JobResultRequest): Option<real>
  {
    if body.datasetLevel == [] then None else Some(body.datasetLevel[0].score)
  }

  /** The segment scores a report body carries, if any. */
  function ReportedSegmentScores(body: JobResultRequest): Option<seq<real>>
  {
    if body.segmentLevel == [] then None else Some(body.segmentLevel[0].scores)
  }

  /** The server reads back from the report exactly the scores the
      processor computed, the segment scores in their order. */
  lemma ReportCarriesScores(result: ExampleResult)
    ensures ReportedDatasetScore(ReportBody(result)) == result.datasetScore
    ensures ReportedSegmentScores(ReportBody(result)) == result.segmentScores
    ensures ReportBody(result).segmentLevel != [] ==>
      ReportBody(result).segmentLevel[0].custom == (if result.segmentCustom == Some([]) then None else result.segmentCustom)
  {
  }

  /** create_auth_headers. */
  function CreateAuthHeaders(token: string): (h: map<string, string>)
    ensures h.Keys == {"Authorization"}
  {
    map["Authorization" := Auth.BearerPrefix + token]
  }

  /** The server extracts from the worker's header the token it was built
      from, stripped of surrounding whitespace; so a worker whose token is
      the unpadded key of a named user is authenticated as that user. */
  lemma AuthHeaderRoundTrip(token: string)
    ensures Auth.ExtractToken(CreateAuthHeaders(token)["Authorization"]) == Text.Strip(token)
  {
    Auth.ExtractFromBearer(token);
  }

  datatype Mode = OneShot | Persistent

  /** How reporting a result ends: success, an HTTP status error, or any
      other exception once the retries give up. */
  datatype ReportOutcome = Reported | HttpError | ReportFailed

  /** What the one-second wait on the result queue yields. */
  datatype Poll =
    | GotResult(result: ExampleResult, report: ReportOutcome)
    | GotPill
    | Empty(processAlive: bool)
    | PollFailed

  /** What an assign request yields once its retries are over: the jobs,
      or the exception that assign_and_get_job re-raises after its second
      failed attempt. */
  datatype Assign = Assigned(jobs: seq<Job>) | AssignFailed

  /** What one pass of the loop observes: the outcome of an assign request
      (read only when it makes one), whether the handle is healthy, and the
      poll of the result queue. */
  datatype Tick = Tick(assign: Assign, healthy: bool, poll: Poll)

  /** How the loop is left; AssignRaised is the exception of an assign
      request, which leaves the loop through the finally block. */
  datatype Exit = Running | AllProcessed | WorkerPill | TooManyFailures | AssignRaised

  /** The loop's variables, and what it has done so far: how many assign
      requests and restarts it made, the sentinels it sent, the examples
      it put on the queue since the last restart, and the reports it sent. */
  datatype LoopState = LoopState(
    inFlight: nat,
    failures: nat,
    finished: bool,
    exit: Exit,
    assigns: nat,
    restarts: nat,
    pillsSent: nat,
    queued: seq<Message<WorkerExample>>,
    reports: seq<JobResultRequest>)

  /** worker.restart(): the examples queue is emptied. */
  function Restarted(s: LoopState): LoopState
  {
    s.(restarts := s.restarts + 1, queued := [])
  }

  /** A failure is counted; at the ceiling the loop ends, otherwise the
      worker is restarted. */
  function Failed(s: LoopState): LoopState
  {
    var s1 := s.(failures := s.failures + 1);
    if s1.failures >= MaxConsecutiveFailures then s1.(finished := true, exit := TooManyFailures)
    else Restarted(s1)
  }

  /** The health check and the wait on the result queue. */
  function Await(s: LoopState, t: Tick): LoopState
    requires s.inFlight > 0
  {
    if !t.healthy then Restarted(s).(failures := 0)
    else match t.poll
      case GotPill => s.(exit := WorkerPill)
      case GotResult(result, report) =>
        var s1 := s.(failures := 0, inFlight := s.inFlight - 1, reports := s.reports + [ReportBody(result)]);
        if report.ReportFailed? then Failed(s1) else s1
      case Empty(processAlive) => if processAlive then s else Failed(s)
      case PollFailed => Failed(s)
  }

  /** One pass of the main loop. */
  function Step(mode: Mode, s: LoopState, t: Tick): LoopState
  {
    if mode.Persistent? && s.inFlight == 0 then
      var s1 := s.(assigns := s.assigns + 1);
      match t.assign
      case AssignFailed => s1.(exit := AssignRaised)
      case Assigned(jobs) =>
        if jobs == [] then s1
        else Await(s1.(inFlight := |jobs|, queued := s.queued + Examples(jobs)), t)
    else if mode.OneShot? && s.inFlight == 0 then
      s.(pillsSent := s.pillsSent + 1, finished := true, exit := AllProcessed)
    else Await(s, t)
  }

  /** The loop run over the observations, until it exits or they run out. */
  function Run(mode: Mode, s: LoopState, ticks: seq<Tick>): LoopState
    decreases |ticks|
  {
    if ticks == [] || !s.exit.Running? then s else Run(mode, Step(mode, s, ticks[0]), ticks[1..])
  }

  /** The state once the initial jobs are on the queue. */
  function Initial(initialJobs: seq<Job>): LoopState
  {
    LoopState(|initialJobs|, 0, false, Running, 1, 0, 0, Examples(initialJobs), [])
  }

  /** How _main ends: by the exception of the initial assign request,
      raised while no worker exists; by returning before a worker exists;
      after the loop, with the worker unregistered by the finally block
      (and, when the loop ended with AssignRaised, the exception raised
      again after that); or not at all, with the worker still registered,
      while the heartbeat task keeps the task group open. */
  datatype MainOutcome =
    | RaisedBeforeWorker
    | NoWorker
    | Unregistered(final: LoopState)
    | StillRegistered(final: LoopState)

  /** What follows the loop. When it set finished, the heartbeat task stops
      at its next check, the task group closes, and the finally block
      unregisters the worker and sets finished. An assign request that
      raised cancels the task group and reaches the finally block too.
      Otherwise the heartbeat task goes on sending heartbeats: the task
      group is not left, so the finally block is not reached. This is the
      case of the worker's own sentinel, whose break leaves finished false,
      and of a loop still running when the observations run out. */
  function AfterLoop(s: LoopState): MainOutcome
  {
    if s.finished || s.exit.AssignRaised? then Unregistered(s.(finished := true)) else StillRegistered(s)
  }

  function MainRun(mode: Mode, initial: Assign, ticks: seq<Tick>): MainOutcome
  {
    match initial
    case AssignFailed => RaisedBeforeWorker
    case Assigned(initialJobs) =>
      if initialJobs == [] && mode.OneShot? then NoWorker
      else AfterLoop(Run(mode, Initial(initialJobs), ticks))
  }

  /** _main as evidently intended: the break on the worker's sentinel sets
      finished first, as the breaks on all jobs processed and on too many
      failures do. Step never reads finished, so only the state after the
      loop differs. */
  function MainRunIntended(mode: Mode, initial: Assign, ticks: seq<Tick>): MainOutcome
  {
    match initial
    case AssignFailed => RaisedBeforeWorker
    case Assigned(initialJobs) =>
      if initialJobs == [] && mode.OneShot? then NoWorker
      else
        var s := Run(mode, Initial(initialJobs), ticks);
        AfterLoop(if s.exit.WorkerPill? then s.(finished := true) else s)
  }

  /** One pass of the loop, as the source writes it. */
  method Iteration(mode: Mode, s: LoopState, t: Tick) returns (r: LoopState)
    ensures r == Step(mode, s, t)
  {
    r := s;
    if mode == Persistent && r.inFlight == 0 {
      r := r.(assigns := r.assigns + 1);
      if t.assign == AssignFailed {
        r := r.(exit := AssignRaised);
        return;
      }
      var jobs := t.assign.jobs;
      if jobs == [] {
        return;
      }
      var queued := r.queued;
      for i := 0 to |jobs|
        invariant queued == r.queued + Examples(jobs[..i])
      {
        assert jobs[..i + 1] == jobs[..i] + [jobs[i]];
        queued := queued + [Item(JobToExample(jobs[i]))];
      }
      assert jobs[..|jobs|] == jobs;
      r := r.(inFlight := |jobs|, queued := queued);
    }
    if mode == OneShot && r.inFlight == 0 {
      r := r.(pillsSent := r.pillsSent + 1, finished := true, exit := AllProcessed);
      return;
    }
    if !t.healthy {
      r := r.(restarts := r.restarts + 1, queued := [], failures := 0);
      return;
    }
    var failed := false;
    match t.poll {
      case GotPill =>
        r := r.(exit := WorkerPill);
        return;
      case GotResult(result, report) =>
        r := r.(failures := 0, inFlight := r.inFlight - 1);
        r := r.(reports := r.reports + [ReportBody(result)]);
        failed := report == ReportFailed;
      case Empty(processAlive) =>
        failed := !processAlive;
      case PollFailed =>
        failed := true;
    }
    if failed {
      r := r.(failures := r.failures + 1);
      if r.failures >= MaxConsecutiveFailures {
        r := r.(finished := true, exit := TooManyFailures);
      } else {
        r := r.(restarts := r.restarts + 1, queued := []);
      }
    }
  }

  /** _main after registration: the exception of a failed initial assign
      request, raised before a worker exists; nothing when one-shot finds
      no initial jobs; otherwise the initial jobs are queued and the loop
      runs until it exits or the observations run out, and what follows the
      loop decides whether the worker is unregistered. */
  method RunWorker(mode: Mode, initial: Assign, ticks: seq<Tick>) returns (r: MainOutcome)
    ensures r == MainRun(mode, initial, ticks)
  {
    if initial == AssignFailed {
      return RaisedBeforeWorker;
    }
    var initialJobs := initial.jobs;
    if |initialJobs| == 0 && mode == OneShot {
      return NoWorker;
    }
    var s := Initial(initialJobs);
    var i := 0;
    while i < |ticks| && s.exit == Running
      invariant 0 <= i <= |ticks|
      invariant Run(mode, s, ticks[i..]) == Run(mode, Initial(initialJobs), ticks)
    {
      assert ticks[i..][1..] == ticks[i + 1..];
      s := Iteration(mode, s, ticks[i]);
      i := i + 1;
    }
    r := AfterLoop(s);
  }

  /** What every state of the loop satisfies: fewer than three failures
      while it runs, exactly three when it gave up; at most one sentinel
      sent, in one-shot mode only, and only when all jobs were processed;
      finished set exactly by the exits on all jobs processed and on too
      many failures. */
  ghost predicate Inv(mode: Mode, s: LoopState)
  {
    && (s.finished <==> s.exit.AllProcessed? || s.exit.TooManyFailures?)
    && (s.exit.Running? ==> s.failures < MaxConsecutiveFailures)
    && (s.exit.TooManyFailures? ==> s.failures == MaxConsecutiveFailures && s.finished)
    && s.pillsSent == (if s.exit.AllProcessed? then 1 else 0)
    && (s.exit.AllProcessed? ==> mode.OneShot? && s.finished && s.inFlight == 0)
    && (s.exit.AssignRaised? ==> mode.Persistent? && s.inFlight == 0)
  }

  lemma StepKeepsInv(mode: Mode, s: LoopState, t: Tick)
    requires Inv(mode, s) && s.exit.Running?
    ensures Inv(mode, Step(mode, s, t))
  {
  }

  /** Every state the loop reaches satisfies Inv. */
  lemma {:induction false} RunKeepsInv(mode: Mode, s: LoopState, ticks: seq<Tick>)
    requires Inv(mode, s)
    ensures Inv(mode, Run(mode, s, ticks))
    decreases |ticks|
  {
    if ticks != [] && s.exit.Running? {
      StepKeepsInv(mode, s, ticks[0]);
      RunKeepsInv(mode, Step(mode, s, ticks[0]), ticks[1..]);
    }
  }

  /** A worker is unregistered only after the loop ended on all jobs
      processed, on too many failures or on a failed assign request. The
      loop gives up exactly at three consecutive failures; one-shot mode
      sends a single sentinel when it ends by processing all jobs, and
      persistent mode never sends one; an assign request raises only in
      persistent mode with nothing in flight. */
  lemma MainEnds(mode: Mode, initial: Assign, ticks: seq<Tick>)
    requires MainRun(mode, initial, ticks).Unregistered?
    ensures var s := MainRun(mode, initial, ticks).final;
      && s.finished
      && (s.exit.AllProcessed? || s.exit.TooManyFailures? || s.exit.AssignRaised?)
      && (s.exit.Running? ==> s.failures < MaxConsecutiveFailures)
      && (s.exit.TooManyFailures? ==> s.failures == MaxConsecutiveFailures)
      && s.pillsSent <= 1
      && (mode.Persistent? ==> s.pillsSent == 0)
      && (s.pillsSent == 1 <==> s.exit.AllProcessed?)
      && (s.exit.AssignRaised? ==> mode.Persistent? && s.inFlight == 0)
  {
    RunKeepsInv(mode, Initial(initial.jobs), ticks);
  }

  /** Once a worker exists, _main unregisters it exactly when the loop
      ended otherwise than on the worker's own sentinel; after that
      sentinel, or while the loop is still running, the worker stays
      registered and the heartbeats go on. */
  lemma MainRunAfterLoop(mode: Mode, initialJobs: seq<Job>, ticks: seq<Tick>)
    requires initialJobs != [] || mode.Persistent?
    ensures var s := Run(mode, Initial(initialJobs), ticks);
      MainRun(mode, Assigned(initialJobs), ticks) ==
        if s.exit.Running? || s.exit.WorkerPill? then StillRegistered(s) else Unregistered(s.(finished := true))
  {
    RunKeepsInv(mode, Initial(initialJobs), ticks);
  }

  /** As written, the break on the worker's sentinel leaves finished false:
      one-shot mode with one job whose result is the sentinel never leaves
      the task group and never unregisters the worker. */
  lemma WorkerPillStaysRegistered()
    ensures var s := Initial([Job(1, [])]).(exit := WorkerPill);
      && MainRun(OneShot, Assigned([Job(1, [])]), [Tick(Assigned([]), true, GotPill)]) == StillRegistered(s)
      && !s.finished
  {
    var t := [Tick(Assigned([]), true, GotPill)];
    assert t[1..] == [];
  }

  /** With finished set on the sentinel's break, every way out of the loop
      unregisters the worker, and only a loop still running keeps it
      registered. */
  lemma IntendedUnregistersOnEveryExit(mode: Mode, initialJobs: seq<Job>, ticks: seq<Tick>)
    requires initialJobs != [] || mode.Persistent?
    ensures var s := Run(mode, Initial(initialJobs), ticks);
      MainRunIntended(mode, Assigned(initialJobs), ticks) ==
        if s.exit.Running? then StillRegistered(s) else Unregistered(s.(finished := true))
  {
    RunKeepsInv(mode, Initial(initialJobs), ticks);
  }

  /** One-shot mode with no initial jobs leaves before starting a worker,
      and so without unregistering. */
  lemma OneShotWithoutJobs(ticks: seq<Tick>)
    ensures MainRun(OneShot, Assigned([]), ticks) == NoWorker
  {
  }

  /** A failed initial assign request raises while no worker exists, so
      the finally block unregisters nothing, in either mode. */
  lemma InitialAssignFailure(mode: Mode, ticks: seq<Tick>)
    ensures MainRun(mode, AssignFailed, ticks) == RaisedBeforeWorker
  {
  }

  /** A failed assign request in the loop ends the loop at once, with
      nothing left to observe: what follows is the finally block, which
      unregisters the worker, and the exception raised again. */
  lemma {:induction false} AssignFailureEndsLoop(s: LoopState, t: Tick, rest: seq<Tick>)
    requires s.exit.Running? && s.inFlight == 0 && t.assign == AssignFailed
    ensures Step(Persistent, s, t) == s.(assigns := s.assigns + 1, exit := AssignRaised)
    ensures Run(Persistent, s, [t] + rest) == Step(Persistent, s, t)
  {
    assert ([t] + rest)[0] == t && ([t] + rest)[1..] == rest;
  }

  /** A result received with the worker healthy and jobs in flight takes
      one job off the count, resets the failures and is reported under its
      own job id, with the body built from it. */
  lemma ResultCounts(mode: Mode, s: LoopState, t: Tick)
    requires s.inFlight > 0 && t.healthy && t.poll.GotResult? && !t.poll.report.ReportFailed?
    ensures var r := Step(mode, s, t);
      && r.inFlight == s.inFlight - 1 && r.failures == 0 && r.exit.Running? == s.exit.Running?
      && r.reports == s.reports + [ReportBody(t.poll.result)]
      && r.reports[|r.reports| - 1].jobId == t.poll.result.jobId
  {
  }

  /** An unhealthy handle is restarted, the failures reset and the
      queued examples dropped, while the jobs in flight stay counted. */
  lemma UnhealthyRestarts(mode: Mode, s: LoopState, t: Tick)
    requires s.inFlight > 0 && !t.healthy
    ensures var r := Step(mode, s, t);
      r.restarts == s.restarts + 1 && r.failures == 0 && r.queued == [] && r.inFlight == s.inFlight
  {
  }

  /** Persistent mode asks for jobs exactly when none is in flight, and
      then counts one per job it gets. */
  lemma PersistentAssignsWhenIdle(s: LoopState, t: Tick)
    ensures var r := Step(Persistent, s, t);
      && (r.assigns == s.assigns + 1 <==> s.inFlight == 0)
      && (r.assigns == s.assigns <==> s.inFlight != 0)
      && (s.inFlight == 0 && t.assign == Assigned([]) ==> r == s.(assigns := s.assigns + 1))
      && (s.inFlight == 0 && t.assign.Assigned? && t.assign.jobs != [] && t.healthy && t.poll.Empty? &&
          t.poll.processAlive ==>
            r.inFlight == |t.assign.jobs| && r.queued == s.queued + Examples(t.assign.jobs))
  {
  }

  /** One-shot mode with nothing in flight sends the sentinel and ends,
      without waiting on the queue. */
  lemma OneShotFinishes(s: LoopState, t: Tick)
    requires s.inFlight == 0
    ensures Step(OneShot, s, t) == s.(pillsSent := s.pillsSent + 1, finished := true, exit := AllProcessed)
  {
  }

  /** A dead process seen on an empty queue is restarted, which drops the
      queued examples, but the jobs in flight are still counted: the loop
      goes on waiting for results of jobs no process holds. */
  lemma DeadProcessKeepsInFlight(mode: Mode, s: LoopState, t: Tick)
    requires s.inFlight > 0 && s.failures + 1 < MaxConsecutiveFailures
    requires t.healthy && t.poll == Empty(false)
    ensures var r := Step(mode, s, t);
      r.queued == [] && r.inFlight == s.inFlight && r.failures == s.failures + 1 && r.exit.Running? == s.exit.Running?
  {
  }
}
