/** The worker's handle on its scoring subprocess: the loop the subprocess
    runs, and starting, stopping and restarting it. The operating-system
    process is two flags, hasProcess and alive; whether it has exited after
    each wait of stop() is a parameter. The two multiprocessing queues are
    sequences. */
module Supervisor {
  import opened Common

  datatype ExampleSegment = ExampleSegment(src: string, tgt: string, ref: Option<string>)

  /** One job's data as the metric processor receives it. */
  datatype WorkerExample = WorkerExample(jobId: int, segments: seq<ExampleSegment>, srcLang: string, tgtLang: string)

  /** The scores a processor computes for one job. */
  datatype ExampleResult = ExampleResult(
    jobId: int,
    name: string,
    higherIsBetter: bool,
    segmentScores: Option<seq<real>>,
    datasetScore: Option<real>,
    segmentCustom: Option<seq<map<string, string>>>)

  /** An item of a queue: POISON_PILL, or a value. */
  datatype Message<T> = Pill | Item(value: T)

  /** What processing one example does: a result, None, or an exception. */
  datatype Outcome = Produced(result: ExampleResult) | NoResult | Raised

  /** Where the subprocess loads its processor from. */
  datatype ProcessorRef = ByName(name: string) | FromFile(path: string)

  /** What stop() does to the process, in order. */
  datatype Signal = SendPill | Join(timeout: real) | Terminate | Kill

  /** The waits of stop(): after the pill, after terminate, after kill. */
  datatype Stage = AfterPill | AfterTerminate | AfterKill

  /** The subprocess loads its processor from the file only when no name
      is given. */
  function ChosenProcessor(name: Option<string>, file: Option<string>): (p: ProcessorRef)
    requires name.Some? || file.Some?
    ensures p.FromFile? <==> name.None?
  {
    if name.None? && file.Some? then FromFile(file.value) else ByName(name.value)
  }

  /** An input that ends the subprocess loop: the pill, or an example whose
      processing raises. */
  predicate Stops(m: Message<WorkerExample>, process: WorkerExample -> Outcome)
  {
    m.Pill? || process(m.value).Raised?
  }

  /** The subprocess loop over the inputs it finds: how many it consumes
      and what it puts on the result queue. On the pill it echoes the pill;
      when processing raises it sends the pill; a None result is skipped.
      When the inputs run out it waits, having consumed them all. */
  function Consume(inputs: seq<Message<WorkerExample>>, process: WorkerExample -> Outcome): (r: (nat, seq<Message<ExampleResult>>))
    ensures r.0 <= |inputs|
  {
    if inputs == [] then (0, [])
    else if Stops(inputs[0], process) then (1, [Pill])
    else
      var rest := Consume(inputs[1..], process);
      match process(inputs[0].value)
      case Produced(res) => (rest.0 + 1, [Item(res)] + rest.1)
      case _ => (rest.0 + 1, rest.1)
  }

  /** The results that the examples of inputs produce, in order. */
  function ResultsOf(inputs: seq<Message<WorkerExample>>, process: WorkerExample -> Outcome): seq<ExampleResult>
  {
    if inputs == [] then []
    else
      var rest := ResultsOf(inputs[1..], process);
      if inputs[0].Item? && process(inputs[0].value).Produced? then [process(inputs[0].value).result] + rest else rest
  }

  /** The values of the items of a result queue, pills left out. */
  function Values(out: seq<Message<ExampleResult>>): seq<ExampleResult>
  {
    if out == [] then []
    else if out[0].Pill? then Values(out[1..])
    else [out[0].value] + Values(out[1..])
  }

  /** The loop consumes the inputs up to and including the first one that
      stops it and no further, and sends exactly one pill, as its last
      output, exactly when there is such an input. */
  lemma {:induction false} ConsumeStopsOnce(inputs: seq<Message<WorkerExample>>, process: WorkerExample -> Outcome)
    ensures var (consumed, out) := Consume(inputs, process);
      && (forall i :: 0 <= i < consumed - 1 ==> !Stops(inputs[i], process))
      && (forall j :: 0 <= j < |out| - 1 ==> out[j].Item?)
      && ((exists i :: 0 <= i < |inputs| && Stops(inputs[i], process)) <==> (out != [] && out[|out| - 1].Pill?))
      && (out != [] && out[|out| - 1].Pill? ==> consumed >= 1 && Stops(inputs[consumed - 1], process))
      && (!(out != [] && out[|out| - 1].Pill?) ==> consumed == |inputs|)
  {
    if inputs != [] && !Stops(inputs[0], process) {
      var tail := inputs[1..];
      ConsumeStopsOnce(tail, process);
      assert forall i :: 0 < i < |inputs| ==> inputs[i] == tail[i - 1];
      var rest := Consume(tail, process);
      var out := Consume(inputs, process).1;
      if process(inputs[0].value).Produced? {
        assert out == [Item(process(inputs[0].value).result)] + rest.1;
        assert forall j :: 0 < j < |out| ==> out[j] == rest.1[j - 1];
      } else {
        assert out == rest.1;
      }
      if exists i :: 0 <= i < |inputs| && Stops(inputs[i], process) {
        var i :| 0 <= i < |inputs| && Stops(inputs[i], process);
        assert Stops(tail[i - 1], process);
      }
    }
  }

  /** The results the loop sends are those of the examples it consumed,
      in input order. */
  lemma {:induction false} ConsumeInOrder(inputs: seq<Message<WorkerExample>>, process: WorkerExample -> Outcome)
    ensures Values(Consume(inputs, process).1) == ResultsOf(inputs[..Consume(inputs, process).0], process)
  {
    if inputs == [] {
    } else if Stops(inputs[0], process) {
      assert inputs[..1] == [inputs[0]];
      assert inputs[..1][1..] == [];
      assert Values([Pill]) == Values([]);
    } else {
      var tail := inputs[1..];
      ConsumeInOrder(tail, process);
      var rest := Consume(tail, process);
      var consumed := Consume(inputs, process).0;
      assert inputs[..consumed][1..] == tail[..rest.0];
      var out := Consume(inputs, process).1;
      if process(inputs[0].value).Produced? {
        assert out == [Item(process(inputs[0].value).result)] + rest.1;
        assert out[1..] == rest.1;
      }
    }
  }

  /** The signals of stop() on a live process: the pill and a wait of half
      the timeout; terminate and a wait of a quarter only if it is still
      alive; kill and another quarter only if it is alive after that too. */
  function StopSignals(timeout: real, exited: Stage -> bool): seq<Signal>
  {
    [SendPill, Join(timeout / 2.0)] +
    (if exited(AfterPill) then []
     else [Terminate, Join(timeout / 4.0)] + (if exited(AfterTerminate) then [] else [Kill, Join(timeout / 4.0)]))
  }

  /** The process survives stop() only if none of the three waits sees it exit. */
  predicate SurvivesStop(exited: Stage -> bool)
  {
    !exited(AfterPill) && !exited(AfterTerminate) && !exited(AfterKill)
  }

  /** Escalation: stop() sends the pill first, terminates only a process
      that outlived the pill, and kills only one that outlived terminate as
      well; each signal is sent at most once, in that order. */
  lemma StopEscalates(timeout: real, exited: Stage -> bool)
    ensures var s := StopSignals(timeout, exited);
      && (Terminate in s <==> !exited(AfterPill))
      && (Kill in s <==> !exited(AfterPill) && !exited(AfterTerminate))
      && (forall i :: 0 <= i < |s| && s[i] == SendPill ==> i == 0)
      && (forall i :: 0 <= i < |s| && s[i] == Terminate ==> i == 2)
      && (forall i :: 0 <= i < |s| && s[i] == Kill ==> i == 4)
  {
    var s := StopSignals(timeout, exited);
    if !exited(AfterPill) && !exited(AfterTerminate) {
      assert s == [SendPill, Join(timeout / 2.0), Terminate, Join(timeout / 4.0), Kill, Join(timeout / 4.0)];
    } else if !exited(AfterPill) {
      assert s == [SendPill, Join(timeout / 2.0), Terminate, Join(timeout / 4.0)];
    } else {
      assert s == [SendPill, Join(timeout / 2.0)];
    }
  }

  /** The loop of the subprocess on the examples queue: take the next
      item; on the pill send the pill and stop; process an example; skip a
      None result, send any other; on an exception send the pill and stop.
      Returns what is left on the queue and what was sent. */
  method RunLoop(queue: seq<Message<WorkerExample>>, process: WorkerExample -> Outcome)
    returns (rest: seq<Message<WorkerExample>>, sent: seq<Message<ExampleResult>>)
    ensures rest == queue[Consume(queue, process).0..]
    ensures sent == Consume(queue, process).1
  {
    rest, sent := queue, [];
    ghost var consumed := 0;
    while rest != []
      invariant 0 <= consumed <= |queue| && rest == queue[consumed..]
      invariant Consume(queue, process).0 == consumed + Consume(rest, process).0
      invariant Consume(queue, process).1 == sent + Consume(rest, process).1
      decreases |rest|
    {
      ghost var before := rest;
      var item := rest[0];
      rest := rest[1..];
      consumed := consumed + 1;
      assert before[1..] == rest == queue[consumed..];
      if item.Pill? {
        sent := sent + [Pill];
        return;
      }
      var outcome := process(item.value);
      if outcome.Raised? {
        sent := sent + [Pill];
        return;
      }
      if outcome.Produced? {
        sent := sent + [Item(outcome.result)];
      }
    }
  }

  /** The Worker object of the main process. */
  class WorkerHandle {
    var processorName: Option<string>
    var processorFile: Option<string>
    var metricsProcessor: Option<ProcessorRef>
    var hasProcess: bool
    var alive: bool
    var processesStarted: nat
    var examplesQueue: seq<Message<WorkerExample>>
    var resultQueue: seq<Message<ExampleResult>>
    var signals: seq<Signal>

    ghost predicate Valid()
      reads this
    {
      (processorName.Some? || processorFile.Some?) && (alive ==> hasProcess)
    }

    /** A handle with no process yet and empty queues; construction
      without a processor name or file is refused by NewWorker. */
    constructor (name: Option<string>, file: Option<string>)
      requires name.Some? || file.Some?
      ensures Valid()
      ensures processorName == name && processorFile == file && metricsProcessor.None?
      ensures !hasProcess && !alive && processesStarted == 0
      ensures examplesQueue == [] && resultQueue == [] && signals == []
    {
      processorName, processorFile, metricsProcessor := name, file, None;
      hasProcess, alive, processesStarted := false, false, 0;
      examplesQueue, resultQueue, signals := [], [], [];
    }

    /** The process exists and is alive. */
    predicate IsHealthy()
      reads this
    {
      hasProcess && alive
    }

    /** The subprocess: load the processor, from the file only when no name
      is given, and run the loop on the examples queue. */
    method MainLoop(load: ProcessorRef -> WorkerExample -> Outcome)
      requires Valid()
      modifies this`examplesQueue, this`resultQueue, this`metricsProcessor
      ensures Valid()
      ensures metricsProcessor == Some(ChosenProcessor(processorName, processorFile))
      ensures examplesQueue == old(examplesQueue)[Consume(old(examplesQueue), load(metricsProcessor.value)).0..]
      ensures resultQueue == old(resultQueue) + Consume(old(examplesQueue), load(metricsProcessor.value)).1
    {
      var p := ChosenProcessor(processorName, processorFile);
      metricsProcessor := Some(p);
      var rest, sent := RunLoop(examplesQueue, load(p));
      examplesQueue, resultQueue := rest, resultQueue + sent;
    }

    /** Starts a process unless a live one exists. */
    method Start()
      requires Valid()
      modifies this`hasProcess, this`alive, this`processesStarted
      ensures Valid()
      ensures old(IsHealthy()) ==>
        hasProcess && alive && processesStarted == old(processesStarted)
      ensures !old(IsHealthy()) ==>
        hasProcess && alive && processesStarted == old(processesStarted) + 1
    {
      if hasProcess && alive {
        return;
      }
      hasProcess, alive := true, true;
      processesStarted := processesStarted + 1;
    }

    /** Stops the process: the pill, then terminate, then kill, each only
      if the process outlived the previous step. */
    method Stop(timeout: real, exited: Stage -> bool)
      requires Valid()
      modifies this`examplesQueue, this`alive, this`signals
      ensures Valid()
      ensures !old(IsHealthy()) ==>
        examplesQueue == old(examplesQueue) && alive == old(alive) && signals == old(signals)
      ensures old(IsHealthy()) ==>
        && examplesQueue == old(examplesQueue) + [Pill]
        && signals == old(signals) + StopSignals(timeout, exited)
        && alive == SurvivesStop(exited)
    {
      if !hasProcess || !alive {
        return;
      }
      examplesQueue := examplesQueue + [Pill];
      signals := signals + [SendPill, Join(timeout / 2.0)];
      alive := !exited(AfterPill);
      if alive {
        signals := signals + [Terminate, Join(timeout / 4.0)];
        alive := !exited(AfterTerminate);
        if alive {
          signals := signals + [Kill, Join(timeout / 4.0)];
          alive := !exited(AfterKill);
        }
      }
    }

    /** Empties both queues, item by item. */
    method ClearQueues()
      modifies this`examplesQueue, this`resultQueue
      ensures examplesQueue == [] && resultQueue == []
    {
      while examplesQueue != []
        decreases |examplesQueue|
      {
        examplesQueue := examplesQueue[1..];
      }
      while resultQueue != []
        invariant examplesQueue == []
        decreases |resultQueue|
      {
        resultQueue := resultQueue[1..];
      }
    }

    /** Stops the process, empties the queues and starts a new process. A
      process that outlives even kill is kept, and no new one starts. */
    method Restart(timeout: real, exited: Stage -> bool)
      requires Valid()
      modifies this`examplesQueue, this`resultQueue, this`hasProcess, this`alive, this`processesStarted, this`signals
      ensures Valid() && IsHealthy()
      ensures examplesQueue == [] && resultQueue == []
      ensures old(IsHealthy()) ==> signals == old(signals) + StopSignals(timeout, exited)
      ensures !old(IsHealthy()) ==> signals == old(signals)
      ensures old(IsHealthy()) && SurvivesStop(exited) ==> processesStarted == old(processesStarted)
      ensures !(old(IsHealthy()) && SurvivesStop(exited)) ==> processesStarted == old(processesStarted) + 1
    {
      Stop(timeout, exited);
      ClearQueues();
      Start();
    }
  }

  /** Worker(...): a handle, or ValueError when neither a processor name
      nor a processor file is given. */
  method NewWorker(name: Option<string>, file: Option<string>) returns (r: Result<WorkerHandle>)
    ensures r.Err? <==> name.None? && file.None?
    ensures r.Err? ==> r.error == ValueError
    ensures r.Ok? ==>
      && fresh(r.value) && r.value.Valid() && !r.value.hasProcess
      && r.value.processorName == name && r.value.processorFile == file
      && r.value.examplesQueue == [] && r.value.resultQueue == []
  {
    if name.None? && file.None? {
      return Err(ValueError);
    }
    var w := new WorkerHandle(name, file);
    r := Ok(w);
  }
}
