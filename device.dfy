/**
 * The running controller: the shared task queue that the button callback
 * appends to and the consumer loop takes from, and the trace of effects
 * (pulses, queue operations, service calls, speech) in the order they
 * happen. The two threads of control are modelled as interleaved calls.
 */
module Device {
  import opened Wrappers
  import opened Pipeline
  import DataUrl
  import ResponseText

  class Controller {
    var queue: seq<Task>
    var trace: seq<Event>
    var phase: Phase
    /** Every phase entered, in order. */
    ghost var visited: seq<Phase>

    /** Idle between cycles, and the queue keeps first-in-first-out order against the trace. */
    ghost predicate Valid()
      reads this
    {
      phase == Idle && Fifo(queue, trace)
    }

    constructor ()
      ensures Valid()
      ensures queue == [] && trace == [] && visited == [Idle]
    {
      queue, trace, phase, visited := [], [], Idle, [Idle];
    }

    /** vibrate(): one pulse of the given kind. */
    method Vibrate(kind: PulseKind)
      modifies this
      ensures trace == old(trace) + [Pulse(kind)]
      ensures queue == old(queue) && phase == old(phase) && visited == old(visited)
    {
      trace := trace + [Pulse(kind)];
    }

    /** The button callback: the acknowledgement pulse first, then one CAPTURE task at the tail. */
    method ButtonPressed()
      requires Valid()
      modifies this
      ensures Valid()
      ensures trace == old(trace) + PressEvents()
      ensures queue == old(queue) + [CAPTURE]
      ensures visited == old(visited)
    {
      Vibrate(Ack);
      queue := queue + [CAPTURE];
      trace := trace + [Enqueued(CAPTURE)];
      assert trace == old(trace) + StepEvents(old(queue), Press);
      StepKeepsFifo(old(queue), old(trace), Press);
    }

    /** The empty() test followed by get(): the head task, if there is one. */
    method TakeTask() returns (t: Option<Task>)
      modifies this
      ensures old(queue) == [] ==> t == None && queue == [] && trace == old(trace)
      ensures old(queue) != [] ==>
                && t == Some(old(queue)[0]) && queue == old(queue)[1..]
                && trace == old(trace) + [Dequeued(old(queue)[0])]
      ensures phase == old(phase) && visited == old(visited)
    {
      if queue == [] {
        t := None;
      } else {
        t := Some(queue[0]);
        queue := queue[1..];
        trace := trace + [Dequeued(t.value)];
      }
    }

    /**
     * analyze_image(): capture, then on an image the analysis request with
     * its data URL, then text extraction. The result is the description,
     * or None where the source raises.
     */
    method AnalyzeImage(env: Services) returns (d: Option<string>)
      modifies this
      ensures d == Description(env)
      ensures trace == old(trace) + AnalyzeEvents(env)
      ensures visited == old(visited) + AnalyzePhases(env)
      ensures phase == if env.capture.Captured? then Analyzing else Capturing
      ensures queue == old(queue)
    {
      phase, visited := Capturing, visited + [Capturing];
      trace := trace + [CaptureCall];
      match env.capture {
        case CaptureFailed =>
          d := None;
        case Captured(image) =>
          var url := DataUrl.ToDataUrl(image);
          phase, visited := Analyzing, visited + [Analyzing];
          trace := trace + [AnalysisCall(url)];
          match env.analysis {
            case AnalysisFailed =>
              d := None;
            case Responded(resp) =>
              d := Some(ResponseText.Extract(resp));
          }
      }
    }

    /**
     * One processing cycle for a dequeued task: analyze_image, then the
     * success pulse and speech of the description, or the failure pulse if
     * it raised. Tasks other than CAPTURE are dropped.
     */
    method ProcessTask(task: Task, env: Services)
      requires phase == Idle
      modifies this
      ensures trace == old(trace) + CycleEvents(task, env)
      ensures visited == old(visited) + CyclePhases(task, env)[1..]
      ensures queue == old(queue) && phase == Idle
    {
      if task != CAPTURE {
        assert CyclePhases(task, env)[1..] == [];
        return;
      }
      var d := AnalyzeImage(env);
      ghost var t0 := trace;
      match d {
        case None =>
          phase, visited := Failed, visited + [Failed];
          Vibrate(Failure);
        case Some(description) =>
          phase, visited := Speaking, visited + [Speaking];
          Vibrate(Success);
          trace := trace + [Speak(description)];
      }
      phase, visited := Idle, visited + [Idle];
      assert trace == t0 + ReportEvents(d);
      CycleSplit(env);
    }

    /** One turn of the consumer loop (the polling sleep aside). */
    method PollQueue(env: Services)
      requires Valid()
      modifies this
      ensures Valid()
      ensures queue == StepQueue(old(queue), Poll(env))
      ensures trace == old(trace) + StepEvents(old(queue), Poll(env))
      ensures visited == old(visited) + StepPhases(old(queue), Poll(env))
    {
      var t := TakeTask();
      if t.Some? {
        ProcessTask(t.value, env);
      }
      assert queue == StepQueue(old(queue), Poll(env));
      assert trace == old(trace) + StepEvents(old(queue), Poll(env));
      StepKeepsFifo(old(queue), old(trace), Poll(env));
    }

    /** Presses and polls interleaved in the order the script gives. */
    method Run(script: seq<Action>)
      requires Valid()
      modifies this
      ensures Valid()
      ensures queue == RunQueue(old(queue), script)
      ensures trace == old(trace) + RunEvents(old(queue), script)
      ensures visited == old(visited) + RunPhases(old(queue), script)
    {
      var i := 0;
      while i < |script|
        invariant 0 <= i <= |script| && Valid()
        invariant RunQueue(queue, script[i..]) == RunQueue(old(queue), script)
        invariant trace + RunEvents(queue, script[i..]) == old(trace) + RunEvents(old(queue), script)
        invariant visited + RunPhases(queue, script[i..]) == old(visited) + RunPhases(old(queue), script)
        decreases |script| - i
      {
        var q, t := queue, trace;
        ghost var v := visited;
        RunUnfold(q, script[i..]);
        assert script[i..][1..] == script[i + 1..];
        match script[i] {
          case Press => ButtonPressed();
          case Poll(env) => PollQueue(env);
        }
        assert visited == v + StepPhases(q, script[i]);
        Assoc(t, StepEvents(q, script[i]), RunEvents(queue, script[i + 1..]));
        Assoc(v, StepPhases(q, script[i]), RunPhases(queue, script[i + 1..]));
        i := i + 1;
      }
    }

    /**
     * The consumer loop run until the queue as it stands is empty, one
     * environment per task: every task is taken once, in order.
     */
    method Drain(envs: seq<Services>)
      requires Valid() && |envs| == |queue|
      modifies this
      ensures Valid() && queue == []
      ensures trace == old(trace) + RunEvents(old(queue), Polls(envs))
      ensures visited == old(visited) + RunPhases(old(queue), Polls(envs))
      ensures Taken(trace) == Taken(old(trace)) + old(queue)
    {
      var i := 0;
      while queue != []
        invariant 0 <= i <= |envs| && Valid()
        invariant queue == old(queue)[i..]
        invariant trace + RunEvents(queue, Polls(envs[i..])) == old(trace) + RunEvents(old(queue), Polls(envs))
        invariant visited + RunPhases(queue, Polls(envs[i..])) == old(visited) + RunPhases(old(queue), Polls(envs))
        decreases |queue|
      {
        var q, t := queue, trace;
        ghost var v := visited;
        var script := Polls(envs[i..]);
        assert script[0] == Poll(envs[i]);
        assert script[1..] == Polls(envs[i + 1..]);
        RunUnfold(q, script);
        PollQueue(envs[i]);
        Assoc(t, StepEvents(q, script[0]), RunEvents(queue, script[1..]));
        Assoc(v, StepPhases(q, script[0]), RunPhases(queue, script[1..]));
        i := i + 1;
      }
      assert envs[i..] == [];
      DrainTakesAll(old(queue), envs);
      AddedTakenAppend(old(trace), RunEvents(old(queue), Polls(envs)));
    }
  }
}
