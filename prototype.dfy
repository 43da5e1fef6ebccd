/** The earlier prototype of the worker: its subprocess loop, its report
    body and its main loop. Its sentinel is None, so a processor result of
    None reads as the sentinel; its results carry no job id. */
module Prototype {
  import opened Common
  import opened Supervisor
  import opened WorkerMain

  datatype ProtoExample = ProtoExample(segments: seq<ExampleSegment>, srcLang: string, tgtLang: string)

  datatype ProtoResult = ProtoResult(name: string, segmentScores: Option<seq<real>>, datasetScore: Option<real>, higherIsBetter: bool)

  /** What processing an example does: return a value (None included),
      or raise, which ends the subprocess. */
  datatype ProtoOutcome = Returned(value: Option<ProtoResult>) | Raised

  /** A result as the queue carries it: None is the sentinel. */
  function AsMessage(value: Option<ProtoResult>): Message<ProtoResult>
  {
    if value.None? then Pill else Item(value.value)
  }

  /** The subprocess loop: on the sentinel it echoes the sentinel and
      stops; otherwise it puts whatever processing returns; an exception
      is not caught, and the subprocess dies sending nothing. */
  function ProtoConsume(inputs: seq<Message<ProtoExample>>, process: ProtoExample -> ProtoOutcome): (r: (nat, seq<Message<ProtoResult>>))
    ensures r.0 <= |inputs|
  {
    if inputs == [] then (0, [])
    else if inputs[0].Pill? then (1, [Pill])
    else match process(inputs[0].value)
      case Raised => (1, [])
      case Returned(value) =>
        var rest := ProtoConsume(inputs[1..], process);
        (rest.0 + 1, [AsMessage(value)] + rest.1)
  }

  /** An example whose processing returns a result. */
  predicate Processes(m: Message<ProtoExample>, process: ProtoExample -> ProtoOutcome)
  {
    m.Item? && process(m.value).Returned? && process(m.value).value.Some?
  }

  /** Fed only examples that process to results, the loop consumes them
      all and sends their results in input order, with no sentinel. */
  lemma {:induction false} ProtoConsumeInOrder(inputs: seq<Message<ProtoExample>>, process: ProtoExample -> ProtoOutcome)
    requires forall i :: 0 <= i < |inputs| ==> Processes(inputs[i], process)
    ensures ProtoConsume(inputs, process).0 == |inputs|
    ensures |ProtoConsume(inputs, process).1| == |inputs|
    ensures forall i :: 0 <= i < |inputs| && Processes(inputs[i], process) ==>
      ProtoConsume(inputs, process).1[i] == Item(process(inputs[i].value).value.value)
  {
    if inputs != [] {
      var tail := inputs[1..];
      assert forall i :: 0 <= i < |tail| ==> tail[i] == inputs[i + 1];
      ProtoConsumeInOrder(tail, process);
      var out := ProtoConsume(inputs, process).1;
      assert out == [Item(process(inputs[0].value).value.value)] + ProtoConsume(tail, process).1;
    }
  }

  /** The sentinel is echoed once, as the last output, and nothing after it
      is consumed. */
  lemma {:induction false} ProtoConsumeEchoesPill(inputs: seq<Message<ProtoExample>>, process: ProtoExample -> ProtoOutcome, k: nat)
    requires k < |inputs| && inputs[k].Pill?
    requires forall i :: 0 <= i < k ==> Processes(inputs[i], process)
    ensures ProtoConsume(inputs, process).0 == k + 1
    ensures |ProtoConsume(inputs, process).1| == k + 1
    ensures ProtoConsume(inputs, process).1[k].Pill?
    ensures forall i :: 0 <= i < k ==> ProtoConsume(inputs, process).1[i].Item?
  {
    if k > 0 {
      var tail := inputs[1..];
      assert forall i :: 0 <= i < k - 1 ==> tail[i] == inputs[i + 1];
      ProtoConsumeEchoesPill(tail, process, k - 1);
      var out := ProtoConsume(inputs, process).1;
      assert out == [Item(process(inputs[0].value).value.value)] + ProtoConsume(tail, process).1;
    }
  }

  /** A processor that returns None makes the loop send what the main
      process reads as the sentinel, and the loop goes on. */
  lemma NoneReadsAsPill(inputs: seq<Message<ProtoExample>>, process: ProtoExample -> ProtoOutcome)
    requires |inputs| >= 2 && inputs[0].Item? && process(inputs[0].value) == Returned(None)
    requires Processes(inputs[1], process)
    ensures |ProtoConsume(inputs, process).1| >= 2 && ProtoConsume(inputs, process).1[0].Pill?
    ensures ProtoConsume(inputs, process).1[1] == Item(process(inputs[1].value).value.value)
  {
    assert inputs[1..][0] == inputs[1];
  }

  /** The Worker of the prototype: two queues and a start that always
      launches a new process. */
  class ProtoWorker {
    var examplesQueue: seq<Message<ProtoExample>>
    var resultQueue: seq<Message<ProtoResult>>
    var processesStarted: nat

    constructor ()
      ensures examplesQueue == [] && resultQueue == [] && processesStarted == 0
    {
      examplesQueue, resultQueue, processesStarted := [], [], 0;
    }

    /** Starts a new process, whether or not one runs already. */
    method Start()
      modifies this`processesStarted
      ensures processesStarted == old(processesStarted) + 1
    {
      processesStarted := processesStarted + 1;
    }

    /** The subprocess loop on the queues. */
    method MainLoop(process: ProtoExample -> ProtoOutcome)
      modifies this`examplesQueue, this`resultQueue
      ensures examplesQueue == old(examplesQueue)[ProtoConsume(old(examplesQueue), process).0..]
      ensures resultQueue == old(resultQueue) + ProtoConsume(old(examplesQueue), process).1
    {
      var rest, sent := ProtoRunLoop(examplesQueue, process);
      examplesQueue, resultQueue := rest, resultQueue + sent;
    }
  }

  /** The loop of the prototype's subprocess on its examples queue. */
  method ProtoRunLoop(queue: seq<Message<ProtoExample>>, process: ProtoExample -> ProtoOutcome)
    returns (rest: seq<Message<ProtoExample>>, sent: seq<Message<ProtoResult>>)
    ensures rest == queue[ProtoConsume(queue, process).0..]
    ensures sent == ProtoConsume(queue, process).1
  {
    rest, sent := queue, [];
    ghost var consumed := 0;
    while rest != []
      invariant 0 <= consumed <= |queue| && rest == queue[consumed..]
      invariant ProtoConsume(queue, process).0 == consumed + ProtoConsume(rest, process).0
      invariant ProtoConsume(queue, process).1 == sent + ProtoConsume(rest, process).1
      decreases |rest|
    {
      ghost var before := rest;
      var item := rest[0];
      rest := rest[1..];
      consumed := consumed + 1;
      assert before[1..] == rest == queue[consumed..];
      if item.Pill? {
        sent := sent + [Pill];
        return;
      }
      var outcome := process(item.value);
      if outcome.Raised? {
        return;
      }
      sent := sent + [AsMessage(outcome.value)];
    }
  }

  datatype ProtoSegmentMetric = ProtoSegmentMetric(name: string, higherIsBetter: bool, scores: seq<real>)

  datatype ProtoJobResultRequest = ProtoJobResultRequest(jobId: int, datasetLevel: seq<DatasetMetric>, segmentLevel: seq<ProtoSegmentMetric>)

  /** The prototype's report body: always one dataset-level and one
      segment-level entry. A missing dataset score fails validation
      (ValueError) and, failing that, missing segment scores cannot be
      iterated (TypeError). */
  function ProtoReportBody(result: ProtoResult, jobId: int): (r: Result<ProtoJobResultRequest>)
    ensures r.Err? <==> result.datasetScore.None? || result.segmentScores.None?
    ensures r.Err? ==> r.error == (if result.datasetScore.None? then ValueError else TypeError)
    ensures r.Ok? ==>
      && r.value.jobId == jobId
      && r.value.datasetLevel == [DatasetMetric(result.name, result.higherIsBetter, result.datasetScore.value)]
      && r.value.segmentLevel == [ProtoSegmentMetric(result.name, result.higherIsBetter, result.segmentScores.value)]
  {
    if result.datasetScore.None? then Err(ValueError)
    else if result.segmentScores.None? then Err(TypeError)
    else Ok(ProtoJobResultRequest(jobId,
      [DatasetMetric(result.name, result.higherIsBetter, result.datasetScore.value)],
      [ProtoSegmentMetric(result.name, result.higherIsBetter, result.segmentScores.value)]))
  }

  /** job_to_example of the prototype: the segments in order, the
      languages English and Czech, and no job id. */
  function ProtoJobToExample(job: Job): (e: ProtoExample)
    ensures e.srcLang == "English" && e.tgtLang == "Czech"
    ensures |e.segments| == |job.segments|
    ensures forall i :: 0 <= i < |e.segments| ==>
      e.segments[i] == ExampleSegment(job.segments[i].src, job.segments[i].tgt, job.segments[i].ref)
  {
    ProtoExample(
      seq(|job.segments|, i requires 0 <= i < |job.segments| =>
        ExampleSegment(job.segments[i].src, job.segments[i].tgt, job.segments[i].ref)),
      "English", "Czech")
  }

  function ProtoExamples(jobs: seq<Job>): (r: seq<Message<ProtoExample>>)
    ensures |r| == |jobs|
    ensures forall i :: 0 <= i < |r| ==> r[i] == Item(ProtoJobToExample(jobs[i]))
  {
    seq(|jobs|, i requires 0 <= i < |jobs| => Item(ProtoJobToExample(jobs[i])))
  }

  /** Both workers turn a job into the same example, except for the job id. */
  lemma SameExampleAsWorker(job: Job)
    ensures ProtoJobToExample(job).segments == JobToExample(job).segments
    ensures ProtoJobToExample(job).srcLang == JobToExample(job).srcLang
    ensures ProtoJobToExample(job).tgtLang == JobToExample(job).tgtLang
  {
  }

  /** What one pass of the prototype's loop observes: the item the
      blocking get returns, whether the report is accepted, and what the
      next assign request yields. */
  datatype ProtoTick = ProtoTick(message: Message<ProtoResult>, reportAccepted: bool, assign: Assign)

  /** How the loop is left: not yet, on the sentinel, one-shot without new
      jobs, or by an exception, which skips unregistering. */
  datatype ProtoExit = Looping | PillReceived | NoMoreJobs | Crashed(error: Error)

  datatype ProtoState = ProtoState(exit: ProtoExit, queued: seq<Message<ProtoExample>>, reports: seq<ProtoJobResultRequest>, assigns: nat, sleeps: nat)

  /** One pass of the prototype's loop; reports go under the first
      initial job's id. */
  function ProtoStep(mode: Mode, firstJobId: int, s: ProtoState, t: ProtoTick): ProtoState
  {
    match t.message
    case Pill => s.(exit := PillReceived)
    case Item(result) =>
      var body := ProtoReportBody(result, firstJobId);
      if body.Err? then s.(exit := Crashed(body.error))
      else if !t.reportAccepted then s.(reports := s.reports + [body.value], exit := Crashed(RequestFailed))
      else
        var s1 := s.(reports := s.reports + [body.value], assigns := s.assigns + 1);
        match t.assign
        case AssignFailed => s1.(exit := Crashed(RequestFailed))
        case Assigned(jobs) =>
          if jobs == [] then
            if mode.OneShot? then s1.(exit := NoMoreJobs) else s1.(sleeps := s1.sleeps + 1)
          else s1.(queued := s1.queued + ProtoExamples(jobs))
  }

  function ProtoRun(mode: Mode, firstJobId: int, s: ProtoState, ticks: seq<ProtoTick>): ProtoState
    decreases |ticks|
  {
    if ticks == [] || !s.exit.Looping? then s else ProtoRun(mode, firstJobId, ProtoStep(mode, firstJobId, s, ticks[0]), ticks[1..])
  }

  /** How the prototype's main ends. The initial assign request raises,
      before the loop; or the loop reads a worker that was never created,
      when there are no initial jobs; or the loop raises. None of these
      exceptions is caught, so none of them reaches the unregister after
      the task group. Or the loop is left by a break (the sentinel, or
      one-shot mode without new jobs): the task group then waits for its
      heartbeat task, which loops forever, so the unregister after it is
      not reached either. Or the loop is still running when the
      observations run out. */
  datatype ProtoMainOutcome =
    | CrashedOnAssign
    | UnboundWorker
    | LoopRaised(final: ProtoState)
    | LoopLeft(final: ProtoState)
    | StillLooping(final: ProtoState)
  {
    /** The loop ran, whatever ended it. */
    predicate RanLoop() {
      LoopRaised? || LoopLeft? || StillLooping?
    }
  }

  /** The outcome once the loop has run. */
  function ProtoAfterLoop(s: ProtoState): ProtoMainOutcome
  {
    match s.exit
    case Looping => StillLooping(s)
    case Crashed(_) => LoopRaised(s)
    case _ => LoopLeft(s)
  }

  function ProtoMainRun(mode: Mode, initial: Assign, ticks: seq<ProtoTick>): ProtoMainOutcome
  {
    match initial
    case AssignFailed => CrashedOnAssign
    case Assigned(initialJobs) =>
      if initialJobs == [] then UnboundWorker
      else
        ProtoAfterLoop(ProtoRun(mode, initialJobs[0].id, ProtoState(Looping, ProtoExamples(initialJobs), [], 1, 0), ticks))
  }

  /** The prototype's main, with its loop. */
  method ProtoMain(mode: Mode, initial: Assign, ticks: seq<ProtoTick>) returns (r: ProtoMainOutcome)
    ensures r == ProtoMainRun(mode, initial, ticks)
  {
    if initial == AssignFailed {
      return CrashedOnAssign;
    }
    var initialJobs := initial.jobs;
    if |initialJobs| == 0 {
      return UnboundWorker;
    }
    var s := ProtoState(Looping, ProtoExamples(initialJobs), [], 1, 0);
    var i := 0;
    while i < |ticks| && s.exit == Looping
      invariant 0 <= i <= |ticks|
      invariant ProtoRun(mode, initialJobs[0].id, s, ticks[i..]) ==
                ProtoRun(mode, initialJobs[0].id, ProtoState(Looping, ProtoExamples(initialJobs), [], 1, 0), ticks)
    {
      assert ticks[i..][1..] == ticks[i + 1..];
      var t := ticks[i];
      i := i + 1;
      if t.message.Pill? {
        s := s.(exit := PillReceived);
        break;
      }
      var body := ProtoReportBody(t.message.value, initialJobs[0].id);
      if body.Err? {
        s := s.(exit := Crashed(body.error));
        break;
      }
      s := s.(reports := s.reports + [body.value]);
      if !t.reportAccepted {
        s := s.(exit := Crashed(RequestFailed));
        break;
      }
      s := s.(assigns := s.assigns + 1);
      if t.assign == AssignFailed {
        s := s.(exit := Crashed(RequestFailed));
        break;
      }
      var jobs := t.assign.jobs;
      if jobs == [] {
        if mode == OneShot {
          s := s.(exit := NoMoreJobs);
          break;
        }
        s := s.(sleeps := s.sleeps + 1);
        continue;
      }
      s := s.(queued := s.queued + ProtoExamples(jobs));
    }
    r := ProtoAfterLoop(s);
  }

  /** What the prototype's loop keeps: every report is under the first
      job's id, and the main process never puts a sentinel on the queue. */
  ghost predicate ProtoInv(firstJobId: int, s: ProtoState)
  {
    && (forall k :: 0 <= k < |s.reports| ==> s.reports[k].jobId == firstJobId)
    && (forall k :: 0 <= k < |s.queued| ==> s.queued[k].Item?)
  }

  lemma {:induction false} ProtoRunKeepsInv(mode: Mode, firstJobId: int, s: ProtoState, ticks: seq<ProtoTick>)
    requires ProtoInv(firstJobId, s)
    ensures ProtoInv(firstJobId, ProtoRun(mode, firstJobId, s, ticks))
    decreases |ticks|
  {
    if ticks != [] && s.exit.Looping? {
      var s1 := ProtoStep(mode, firstJobId, s, ticks[0]);
      assert ProtoInv(firstJobId, s1);
      ProtoRunKeepsInv(mode, firstJobId, s1, ticks[1..]);
    }
  }

  /** Every result is reported under the first initial job's id, whichever
      job it belongs to, and the examples queue never holds the sentinel,
      so the subprocess never echoes one. */
  lemma ProtoReportsUnderFirstJob(mode: Mode, initial: Assign, ticks: seq<ProtoTick>)
    requires ProtoMainRun(mode, initial, ticks).RanLoop()
    ensures var s := ProtoMainRun(mode, initial, ticks).final;
      && (forall k :: 0 <= k < |s.reports| ==> s.reports[k].jobId == initial.jobs[0].id)
      && (forall k :: 0 <= k < |s.queued| ==> s.queued[k].Item?)
  {
    ProtoRunKeepsInv(mode, initial.jobs[0].id, ProtoState(Looping, ProtoExamples(initial.jobs), [], 1, 0), ticks);
  }

  /** Two initial jobs, both scored and reported: the second job's result
      goes to the server under the first job's id. */
  lemma ProtoMisattributesSecondResult(result: ProtoResult)
    requires result.datasetScore.Some? && result.segmentScores.Some?
    ensures var jobs := [Job(1, []), Job(2, [])];
      var t := ProtoTick(Item(result), true, Assigned([Job(3, [])]));
      var s := ProtoMainRun(Persistent, Assigned(jobs), [t, t]).final;
      |s.reports| == 2 && s.reports[1].jobId == 1 != jobs[1].id
  {
    var jobs := [Job(1, []), Job(2, [])];
    var t := ProtoTick(Item(result), true, Assigned([Job(3, [])]));
    var s0 := ProtoState(Looping, ProtoExamples(jobs), [], 1, 0);
    var s1 := ProtoStep(Persistent, 1, s0, t);
    assert s1.exit.Looping? && |s1.reports| == 1;
    var s2 := ProtoStep(Persistent, 1, s1, t);
    assert [t, t][1..] == [t];
    assert ProtoRun(Persistent, 1, s0, [t, t]) == ProtoRun(Persistent, 1, s1, [t]) == s2;
  }

  /** With no initial jobs the prototype fails on its first read of the
      result queue, before any report. */
  lemma ProtoWithoutJobs(mode: Mode, ticks: seq<ProtoTick>)
    ensures ProtoMainRun(mode, Assigned([]), ticks) == UnboundWorker
  {
  }

  /** A failed assign request is never caught: before the loop it ends
      the prototype at once, and after an accepted report it ends the loop
      with the report sent and the worker not unregistered. */
  lemma ProtoAssignFailureCrashes(mode: Mode, firstJobId: int, s: ProtoState, t: ProtoTick, ticks: seq<ProtoTick>)
    requires t.message.Item? && t.message.value.datasetScore.Some? && t.message.value.segmentScores.Some?
    requires t.reportAccepted && t.assign == AssignFailed
    ensures ProtoMainRun(mode, AssignFailed, ticks) == CrashedOnAssign
    ensures var r := ProtoStep(mode, firstJobId, s, t);
      && r.exit == Crashed(RequestFailed)
      && |r.reports| == |s.reports| + 1 && r.reports[|s.reports|].jobId == firstJobId
      && r.queued == s.queued
  {
  }

  /** After an accepted report, a one-shot prototype with no new jobs
      leaves the loop; a persistent one sleeps and goes on. */
  lemma ProtoNoJobs(mode: Mode, firstJobId: int, s: ProtoState, t: ProtoTick)
    requires t.message.Item? && t.message.value.datasetScore.Some? && t.message.value.segmentScores.Some?
    requires t.reportAccepted && t.assign == Assigned([])
    ensures mode.OneShot? ==> ProtoStep(mode, firstJobId, s, t).exit.NoMoreJobs?
    ensures mode.Persistent? ==>
      ProtoStep(mode, firstJobId, s, t).exit == s.exit && ProtoStep(mode, firstJobId, s, t).sleeps == s.sleeps + 1
  {
  }

  /** As written, the unregister is never reached: a one-shot prototype
      with one job, whose result is reported and followed by no new jobs,
      leaves the loop and then stays in the task group with its heartbeat
      task, still registered. Every other way out of the loop raises. */
  lemma ProtoLeftLoopStaysRegistered(result: ProtoResult)
    requires result.datasetScore.Some? && result.segmentScores.Some?
    ensures var t := ProtoTick(Item(result), true, Assigned([]));
      var r := ProtoMainRun(OneShot, Assigned([Job(1, [])]), [t]);
      r.LoopLeft? && r.final.exit == NoMoreJobs && |r.final.reports| == 1
  {
    var t := ProtoTick(Item(result), true, Assigned([]));
    var s0 := ProtoState(Looping, ProtoExamples([Job(1, [])]), [], 1, 0);
    var s1 := ProtoStep(OneShot, 1, s0, t);
    assert s1.exit == NoMoreJobs && |s1.reports| == 1;
    assert [t][1..] == [];
    assert ProtoRun(OneShot, 1, s0, [t]) == ProtoRun(OneShot, 1, s1, []) == s1;
  }
}
