/**
 * The decision logic of the task pipeline: what one processing cycle does
 * for a dequeued task, what a button press and a poll of the queue do, and
 * the first-in-first-out guarantees of the queue. Effects are recorded as
 * an event trace; the capture and analysis services are abstract outcomes.
 */
module Pipeline {
  import opened Wrappers
  import Base64
  import DataUrl
  import ResponseText
  import PyText

  /** A queued task is a tag; the button handler only ever queues CAPTURE. */
  type Task = string
  const CAPTURE: Task := "capture"

  /** The named haptic pulses. */
  datatype PulseKind = Ack | Success | Failure

  /** How long vibrate() holds the motor for each kind of pulse, in milliseconds. */
  function Millis(k: PulseKind): nat
  {
    match k
    case Ack => 200
    case Success => 500
    case Failure => 1000
  }

  /** The three pulses differ in length, so the wearer can tell them apart by touch. */
  lemma PulsesDistinct()
    ensures Millis(Ack) < Millis(Success) < Millis(Failure)
  {
  }

  datatype Event =
    | Pulse(kind: PulseKind)
    | Enqueued(task: Task)
    | Dequeued(task: Task)
    | CaptureCall
    | AnalysisCall(dataUrl: string)
    | Speak(text: string)

  /** The capture step, including reading the file back: the image bytes, or a failure. */
  datatype CaptureOutcome = Captured(image: seq<Base64.byte>) | CaptureFailed

  /** The analysis request: the service's response, or a failure. */
  datatype AnalysisOutcome = Responded(response: ResponseText.Response) | AnalysisFailed

  /** What the external services do in one cycle, should they be called. */
  datatype Services = Services(capture: CaptureOutcome, analysis: AnalysisOutcome)

  datatype Phase = Idle | Capturing | Analyzing | Speaking | Failed

  /** The transitions of one processing cycle. */
  predicate Edge(p: Phase, q: Phase)
  {
    match (p, q)
    case (Idle, Capturing) => true
    case (Capturing, Analyzing) => true
    case (Capturing, Failed) => true
    case (Analyzing, Speaking) => true
    case (Analyzing, Failed) => true
    case (Speaking, Idle) => true
    case (Failed, Idle) => true
    case _ => false
  }

  predicate Succeeds(task: Task, env: Services)
  {
    task == CAPTURE && env.capture.Captured? && env.analysis.Responded?
  }

  /** The phases a cycle passes through, from Idle back to Idle; a task other than CAPTURE starts no cycle. */
  function CyclePhases(task: Task, env: Services): seq<Phase>
  {
    if task != CAPTURE then [Idle]
    else if env.capture.CaptureFailed? then [Idle, Capturing, Failed, Idle]
    else if env.analysis.AnalysisFailed? then [Idle, Capturing, Analyzing, Failed, Idle]
    else [Idle, Capturing, Analyzing, Speaking, Idle]
  }

  /**
   * Every cycle is a path of the state machine from Idle back to Idle: it
   * reaches Speaking exactly when both services succeed, Failed exactly when
   * a capture task fails, and Analyzing exactly when capture succeeded.
   */
  lemma CyclePath(task: Task, env: Services)
    ensures var ps := CyclePhases(task, env);
      && |ps| >= 1 && ps[0] == Idle && ps[|ps| - 1] == Idle
      && (forall k :: 0 <= k < |ps| - 1 ==> Edge(ps[k], ps[k + 1]))
      && (task != CAPTURE ==> ps == [Idle])
      && (Speaking in ps <==> Succeeds(task, env))
      && (Failed in ps <==> task == CAPTURE && !Succeeds(task, env))
      && (Analyzing in ps <==> task == CAPTURE && env.capture.Captured?)
  {
  }

  function Occurrences<T(==)>(s: seq<T>, x: T): nat
  {
    if s == [] then 0 else (if s[0] == x then 1 else 0) + Occurrences(s[1..], x)
  }

  lemma {:induction false} OccurrencesAppend<T>(a: seq<T>, b: seq<T>, x: T)
    ensures Occurrences(a + b, x) == Occurrences(a, x) + Occurrences(b, x)
  {
    if a == [] {
      assert a + b == b;
    } else {
      assert (a + b)[1..] == a[1..] + b;
      OccurrencesAppend(a[1..], b, x);
    }
  }

  /** The number of outcome pulses (success or failure) in a trace. */
  function Outcomes(es: seq<Event>): nat
  {
    Occurrences(es, Pulse(Success)) + Occurrences(es, Pulse(Failure))
  }

  predicate IsQueueEvent(e: Event)
  {
    e.Enqueued? || e.Dequeued?
  }

  /**
   * The effects of processing one dequeued task: capture, then analysis of
   * the captured image's data URL, then the success pulse and speech of the
   * extracted description; a failure at either service ends the cycle with
   * the failure pulse.
   */
  function CycleEvents(task: Task, env: Services): seq<Event>
  {
    if task != CAPTURE then []
    else match env.capture
      case CaptureFailed => [CaptureCall, Pulse(Failure)]
      case Captured(image) =>
        var request := AnalysisCall(DataUrl.ToDataUrl(image));
        match env.analysis
        case AnalysisFailed => [CaptureCall, request, Pulse(Failure)]
        case Responded(resp) =>
          [CaptureCall, request, Pulse(Success), Speak(ResponseText.Extract(resp))]
  }

  /** The effects of analyze_image up to its return or exception: capture, then on an image the analysis request. */
  function AnalyzeEvents(env: Services): seq<Event>
  {
    match env.capture
    case CaptureFailed => [CaptureCall]
    case Captured(image) => [CaptureCall, AnalysisCall(DataUrl.ToDataUrl(image))]
  }

  function AnalyzePhases(env: Services): seq<Phase>
  {
    if env.capture.Captured? then [Capturing, Analyzing] else [Capturing]
  }

  /** The description analyze_image returns; None where it raises. */
  function Description(env: Services): Option<string>
  {
    if env.capture.Captured? && env.analysis.Responded?
    then Some(ResponseText.Extract(env.analysis.response))
    else None
  }

  /** The feedback on an outcome: the success pulse and speech of the description, or the failure pulse. */
  function ReportEvents(d: Option<string>): seq<Event>
  {
    match d
    case None => [Pulse(Failure)]
    case Some(text) => [Pulse(Success), Speak(text)]
  }

  /**
   * An empty result is not a failure: a whitespace-only output_text strips
   * to "", which analyze_image returns and the cycle then speaks.
   */
  lemma BlankDescriptionSpoken(image: seq<Base64.byte>, output: seq<ResponseText.Item>, repr: string)
    ensures Description(Services(Captured(image), Responded(ResponseText.Direct(Some(" "), output, repr)))) == Some("")
  {
    PyText.StripUnique(" ", "", "");
    assert " " + "" + "" == " ";
  }

  /**
   * A CAPTURE cycle is analyze_image followed by the feedback on its
   * outcome, and analyze_image returns exactly when both services succeed.
   */
  lemma CycleSplit(env: Services)
    ensures CycleEvents(CAPTURE, env) == AnalyzeEvents(env) + ReportEvents(Description(env))
    ensures CyclePhases(CAPTURE, env)[1..]
      == AnalyzePhases(env) + [if Description(env).Some? then Speaking else Failed, Idle]
    ensures Description(env).Some? <==> Succeeds(CAPTURE, env)
  {
  }

  /**
   * A task other than CAPTURE has no effect at all; a CAPTURE cycle starts
   * with its one capture call, touches no queue, sends no acknowledgement,
   * and any analysis request carries the captured image's data URL.
   */
  lemma CycleShape(task: Task, env: Services)
    ensures var es := CycleEvents(task, env);
      && (task != CAPTURE <==> es == [])
      && (task == CAPTURE ==> es[0] == CaptureCall && forall k :: 1 <= k < |es| ==> es[k] != CaptureCall)
      && (forall k :: 0 <= k < |es| ==> !IsQueueEvent(es[k]) && es[k] != Pulse(Ack))
      && (forall k :: 0 <= k < |es| && es[k].AnalysisCall? ==>
            env.capture.Captured? && es[k].dataUrl == DataUrl.ToDataUrl(env.capture.image))
  {
  }

  /** A failed capture: the failure pulse last, and no analysis request, success pulse or speech. */
  lemma CaptureFailure(task: Task, env: Services)
    requires task == CAPTURE && env.capture.CaptureFailed?
    ensures var es := CycleEvents(task, env);
      && es[|es| - 1] == Pulse(Failure)
      && forall k :: 0 <= k < |es| ==> !es[k].AnalysisCall? && !es[k].Speak? && es[k] != Pulse(Success)
  {
  }

  /** A failed analysis after a capture: the failure pulse last, and no success pulse or speech. */
  lemma AnalysisFailure(task: Task, env: Services)
    requires task == CAPTURE && env.capture.Captured? && env.analysis.AnalysisFailed?
    ensures var es := CycleEvents(task, env);
      && es[|es| - 1] == Pulse(Failure)
      && (exists k :: 0 <= k < |es| && es[k] == AnalysisCall(DataUrl.ToDataUrl(env.capture.image)))
      && forall k :: 0 <= k < |es| ==> !es[k].Speak? && es[k] != Pulse(Success)
  {
    assert CycleEvents(task, env)[1] == AnalysisCall(DataUrl.ToDataUrl(env.capture.image));
  }

  /**
   * A successful cycle ends with the success pulse and then the only speak
   * call, whose text is exactly the description extracted from the response.
   */
  lemma CycleSuccess(task: Task, env: Services)
    requires Succeeds(task, env)
    ensures var es := CycleEvents(task, env);
      && |es| >= 2 && es[|es| - 2] == Pulse(Success)
      && es[|es| - 1] == Speak(ResponseText.Extract(env.analysis.response))
      && (forall k :: 0 <= k < |es| - 1 ==> !es[k].Speak?)
      && (forall k :: 0 <= k < |es| ==> es[k] != Pulse(Failure))
  {
  }

  lemma OccurrencesPair<T>(a: T, b: T, x: T)
    ensures Occurrences([a, b], x) == (if a == x then 1 else 0) + (if b == x then 1 else 0)
  {
    assert [a, b] == [a] + [b];
    OccurrencesAppend([a], [b], x);
    OccurrencesSingle(a, x);
    OccurrencesSingle(b, x);
  }

  lemma OccurrencesSingle<T>(a: T, x: T)
    ensures Occurrences([a], x) == if a == x then 1 else 0
  {
    assert [a][1..] == [];
  }

  /** analyze_image calls capture once and pulses nothing. */
  lemma AnalyzeCounts(env: Services)
    ensures Occurrences(AnalyzeEvents(env), CaptureCall) == 1 && Outcomes(AnalyzeEvents(env)) == 0
  {
    match env.capture {
      case CaptureFailed =>
        assert [CaptureCall][1..] == [];
      case Captured(image) =>
        var a := AnalyzeEvents(env);
        OccurrencesPair(a[0], a[1], CaptureCall);
        OccurrencesPair(a[0], a[1], Pulse(Success));
        OccurrencesPair(a[0], a[1], Pulse(Failure));
    }
  }

  /** The feedback on an outcome is exactly one outcome pulse and no capture. */
  lemma ReportCounts(d: Option<string>)
    ensures Occurrences(ReportEvents(d), CaptureCall) == 0 && Outcomes(ReportEvents(d)) == 1
  {
    match d {
      case None =>
        assert [Pulse(Failure)][1..] == [];
      case Some(text) =>
        OccurrencesPair(Pulse(Success), Speak(text), CaptureCall);
        OccurrencesPair(Pulse(Success), Speak(text), Pulse(Success));
        OccurrencesPair(Pulse(Success), Speak(text), Pulse(Failure));
    }
  }

  /** A CAPTURE cycle calls capture once and emits exactly one outcome pulse; any other task neither. */
  lemma CycleCounts(task: Task, env: Services)
    ensures var es := CycleEvents(task, env);
      && Occurrences(es, CaptureCall) == (if task == CAPTURE then 1 else 0)
      && Outcomes(es) == (if task == CAPTURE then 1 else 0)
  {
    if task == CAPTURE {
      CycleSplit(env);
      var a, r := AnalyzeEvents(env), ReportEvents(Description(env));
      OccurrencesAppend(a, r, CaptureCall);
      OccurrencesAppend(a, r, Pulse(Success));
      OccurrencesAppend(a, r, Pulse(Failure));
      AnalyzeCounts(env);
      ReportCounts(Description(env));
    }
  }

  /** The tasks queued, in trace order. */
  function Added(trace: seq<Event>): seq<Task>
  {
    if trace == [] then []
    else (if trace[0].Enqueued? then [trace[0].task] else []) + Added(trace[1..])
  }

  /** The tasks taken off the queue, in trace order. */
  function Taken(trace: seq<Event>): seq<Task>
  {
    if trace == [] then []
    else (if trace[0].Dequeued? then [trace[0].task] else []) + Taken(trace[1..])
  }

  lemma {:induction false} AddedAppend(a: seq<Event>, b: seq<Event>)
    ensures Added(a + b) == Added(a) + Added(b)
  {
    if a == [] {
      assert a + b == b;
    } else {
      var h := if a[0].Enqueued? then [a[0].task] else [];
      assert (a + b)[0] == a[0] && (a + b)[1..] == a[1..] + b;
      AddedAppend(a[1..], b);
      Assoc(h, Added(a[1..]), Added(b));
    }
  }

  lemma {:induction false} TakenAppend(a: seq<Event>, b: seq<Event>)
    ensures Taken(a + b) == Taken(a) + Taken(b)
  {
    if a == [] {
      assert a + b == b;
    } else {
      var h := if a[0].Dequeued? then [a[0].task] else [];
      assert (a + b)[0] == a[0] && (a + b)[1..] == a[1..] + b;
      TakenAppend(a[1..], b);
      Assoc(h, Taken(a[1..]), Taken(b));
    }
  }

  /** Both queue projections of a trace distribute over concatenation. */
  lemma AddedTakenAppend(a: seq<Event>, b: seq<Event>)
    ensures Added(a + b) == Added(a) + Added(b)
    ensures Taken(a + b) == Taken(a) + Taken(b)
  {
    AddedAppend(a, b);
    TakenAppend(a, b);
  }

  lemma {:induction false} NoQueueEvents(es: seq<Event>)
    requires forall k :: 0 <= k < |es| ==> !IsQueueEvent(es[k])
    ensures Added(es) == [] && Taken(es) == []
  {
    if es != [] {
      NoQueueEvents(es[1..]);
    }
  }

  /** The queue discipline: what was taken, followed by what is still queued, is what was queued. */
  predicate Fifo(queue: seq<Task>, trace: seq<Event>)
  {
    Taken(trace) + queue == Added(trace)
  }

  /** The external drivers of the controller: a button press, or one turn of the consumer loop. */
  datatype Action = Press | Poll(env: Services)

  /** The button handler: acknowledge with a pulse, then queue one capture task. */
  function PressEvents(): seq<Event>
  {
    [Pulse(Ack), Enqueued(CAPTURE)]
  }

  /** One turn of the consumer loop: nothing on an empty queue, else take the head and process it. */
  function PollEvents(queue: seq<Task>, env: Services): seq<Event>
  {
    if queue == [] then [] else [Dequeued(queue[0])] + CycleEvents(queue[0], env)
  }

  function StepQueue(queue: seq<Task>, a: Action): seq<Task>
  {
    match a
    case Press => queue + [CAPTURE]
    case Poll(_) => if queue == [] then [] else queue[1..]
  }

  function StepEvents(queue: seq<Task>, a: Action): seq<Event>
  {
    match a
    case Press => PressEvents()
    case Poll(env) => PollEvents(queue, env)
  }

  /** An interleaving of presses and polls, from a given queue: the final queue. */
  function RunQueue(queue: seq<Task>, script: seq<Action>): seq<Task>
    decreases |script|
  {
    if script == [] then queue else RunQueue(StepQueue(queue, script[0]), script[1..])
  }

  /** An interleaving of presses and polls, from a given queue: the events it produces. */
  function RunEvents(queue: seq<Task>, script: seq<Action>): seq<Event>
    decreases |script|
  {
    if script == [] then []
    else StepEvents(queue, script[0]) + RunEvents(StepQueue(queue, script[0]), script[1..])
  }

  /** The phases a step passes after Idle: none for a press, those of the cycle a poll runs. */
  function StepPhases(queue: seq<Task>, a: Action): seq<Phase>
  {
    match a
    case Press => []
    case Poll(env) => if queue == [] then [] else CyclePhases(queue[0], env)[1..]
  }

  /** An interleaving of presses and polls, from a given queue: the phases the consumer passes. */
  function RunPhases(queue: seq<Task>, script: seq<Action>): seq<Phase>
    decreases |script|
  {
    if script == [] then []
    else StepPhases(queue, script[0]) + RunPhases(StepQueue(queue, script[0]), script[1..])
  }

  /** A walk of the state machine along its transitions, from Idle back to Idle. */
  predicate IdlePath(ps: seq<Phase>)
  {
    && |ps| >= 1 && ps[0] == Idle && ps[|ps| - 1] == Idle
    && forall k :: 0 <= k < |ps| - 1 ==> Edge(ps[k], ps[k + 1])
  }

  lemma PathJoin(a: seq<Phase>, b: seq<Phase>)
    requires IdlePath(a) && IdlePath([Idle] + b)
    ensures IdlePath(a + b)
  {
    var c, d := a + b, [Idle] + b;
    forall k | 0 <= k < |c| - 1
      ensures Edge(c[k], c[k + 1])
    {
      if k < |a| - 1 {
        assert c[k] == a[k] && c[k + 1] == a[k + 1];
      } else if k == |a| - 1 {
        assert c[k] == d[0] && c[k + 1] == d[1];
      } else {
        assert c[k] == d[k - |a| + 1] && c[k + 1] == d[k - |a| + 2];
      }
    }
    if b == [] {
      assert c == a;
    } else {
      assert c[|c| - 1] == d[|d| - 1];
    }
  }

  lemma StepPath(queue: seq<Task>, a: Action)
    ensures IdlePath([Idle] + StepPhases(queue, a))
  {
    if a.Poll? && queue != [] {
      var ps := CyclePhases(queue[0], a.env);
      CyclePath(queue[0], a.env);
      assert [Idle] + ps[1..] == ps;
    } else {
      assert [Idle] + StepPhases(queue, a) == [Idle];
    }
  }

  /**
   * Across any interleaving of presses and polls the consumer walks the
   * state machine: one legal path from Idle back to Idle, cycle after cycle.
   */
  lemma {:induction false} RunPath(queue: seq<Task>, script: seq<Action>)
    ensures IdlePath([Idle] + RunPhases(queue, script))
    decreases |script|
  {
    if script == [] {
      assert [Idle] + RunPhases(queue, script) == [Idle];
    } else {
      var a := script[0];
      var step, rest := StepPhases(queue, a), RunPhases(StepQueue(queue, a), script[1..]);
      RunPath(StepQueue(queue, a), script[1..]);
      StepPath(queue, a);
      PathJoin([Idle] + step, rest);
      RunUnfold(queue, script);
      Assoc([Idle], step, rest);
    }
  }

  /** One CAPTURE tag per press, in script order. */
  function Presses(script: seq<Action>): seq<Task>
  {
    if script == [] then []
    else (if script[0].Press? then [CAPTURE] else []) + Presses(script[1..])
  }

  lemma StepFifo(queue: seq<Task>, a: Action)
    ensures Added(StepEvents(queue, a)) == Presses([a])
    ensures Taken(StepEvents(queue, a)) + StepQueue(queue, a) == queue + Presses([a])
    ensures Occurrences(StepEvents(queue, a), Pulse(Ack)) == |Presses([a])|
  {
    assert Presses([a]) == (if a.Press? then [CAPTURE] else []) + Presses([]);
    match a
    case Press =>
      assert Added(PressEvents()) == [CAPTURE];
      assert Taken(PressEvents()) == [];
    case Poll(env) =>
      if queue != [] {
        var cycle := CycleEvents(queue[0], env);
        CycleShape(queue[0], env);
        NoQueueEvents(cycle);
        AddedTakenAppend([Dequeued(queue[0])], cycle);
        OccurrencesAppend([Dequeued(queue[0])], cycle, Pulse(Ack));
        if cycle != [] {
          assert cycle[0] != Pulse(Ack);
        }
        OccurrencesZero(cycle, Pulse(Ack));
        assert queue == [queue[0]] + queue[1..];
      }
  }

  lemma {:induction false} OccurrencesZero<T>(s: seq<T>, x: T)
    requires forall k :: 0 <= k < |s| ==> s[k] != x
    ensures Occurrences(s, x) == 0
  {
    if s != [] {
      OccurrencesZero(s[1..], x);
    }
  }

  lemma {:induction false} PressesAppend(a: seq<Action>, b: seq<Action>)
    ensures Presses(a + b) == Presses(a) + Presses(b)
  {
    if a == [] {
      assert a + b == b;
    } else {
      var h := if a[0].Press? then [CAPTURE] else [];
      assert (a + b)[0] == a[0] && (a + b)[1..] == a[1..] + b;
      PressesAppend(a[1..], b);
      Assoc(h, Presses(a[1..]), Presses(b));
    }
  }

  lemma RunUnfold(queue: seq<Task>, script: seq<Action>)
    requires script != []
    ensures RunEvents(queue, script)
            == StepEvents(queue, script[0]) + RunEvents(StepQueue(queue, script[0]), script[1..])
    ensures RunQueue(queue, script) == RunQueue(StepQueue(queue, script[0]), script[1..])
    ensures RunPhases(queue, script)
            == StepPhases(queue, script[0]) + RunPhases(StepQueue(queue, script[0]), script[1..])
    ensures Presses(script) == Presses([script[0]]) + Presses(script[1..])
  {
    assert script == [script[0]] + script[1..];
    PressesAppend([script[0]], script[1..]);
  }

  lemma Assoc<X>(a: seq<X>, b: seq<X>, c: seq<X>)
    ensures (a + b) + c == a + (b + c)
  {
  }

  /** Every press queues exactly one CAPTURE task, and nothing else queues anything. */
  lemma {:induction false} RunAdds(queue: seq<Task>, script: seq<Action>)
    ensures Added(RunEvents(queue, script)) == Presses(script)
    decreases |script|
  {
    if script != [] {
      var a, rest := script[0], script[1..];
      var next := StepQueue(queue, a);
      RunUnfold(queue, script);
      StepFifo(queue, a);
      RunAdds(next, rest);
      AddedTakenAppend(StepEvents(queue, a), RunEvents(next, rest));
    }
  }

  /**
   * Whatever the interleaving, no task is lost, duplicated or reordered:
   * the tasks taken, followed by the final queue, are the initial queue
   * followed by one CAPTURE per press.
   */
  lemma {:induction false} RunFifo(queue: seq<Task>, script: seq<Action>)
    ensures Taken(RunEvents(queue, script)) + RunQueue(queue, script) == queue + Presses(script)
    decreases |script|
  {
    if script != [] {
      var a, rest := script[0], script[1..];
      var step, next := StepEvents(queue, a), StepQueue(queue, a);
      var later, final := RunEvents(next, rest), RunQueue(next, rest);
      RunUnfold(queue, script);
      StepFifo(queue, a);
      RunFifo(next, rest);
      AddedTakenAppend(step, later);
      var ts, tl, pa, pr := Taken(step), Taken(later), Presses([a]), Presses(rest);
      Assoc(ts, tl, final);
      Assoc(ts, next, pr);
      Assoc(queue, pa, pr);
    }
  }

  /** Every press sends exactly one acknowledgement pulse, and nothing else does. */
  lemma {:induction false} RunAcks(queue: seq<Task>, script: seq<Action>)
    ensures Occurrences(RunEvents(queue, script), Pulse(Ack)) == |Presses(script)|
    decreases |script|
  {
    if script != [] {
      var a, rest := script[0], script[1..];
      var next := StepQueue(queue, a);
      RunUnfold(queue, script);
      StepFifo(queue, a);
      RunAcks(next, rest);
      OccurrencesAppend(StepEvents(queue, a), RunEvents(next, rest), Pulse(Ack));
    }
  }

  /** An interleaving keeps the queue discipline. */
  lemma RunKeepsFifo(queue: seq<Task>, trace: seq<Event>, script: seq<Action>)
    requires Fifo(queue, trace)
    ensures Fifo(RunQueue(queue, script), trace + RunEvents(queue, script))
  {
    var es, final := RunEvents(queue, script), RunQueue(queue, script);
    RunAdds(queue, script);
    RunFifo(queue, script);
    AddedTakenAppend(trace, es);
    var p := Presses(script);
    Assoc(Taken(trace), Taken(es), final);
    Assoc(Taken(trace), queue, p);
  }

  /** A single press or poll keeps the queue discipline. */
  lemma StepKeepsFifo(queue: seq<Task>, trace: seq<Event>, a: Action)
    requires Fifo(queue, trace)
    ensures Fifo(StepQueue(queue, a), trace + StepEvents(queue, a))
  {
    RunKeepsFifo(queue, trace, [a]);
    RunUnfold(queue, [a]);
    assert [a][1..] == [];
    assert StepEvents(queue, a) + [] == StepEvents(queue, a);
  }

  /** A press made while earlier tasks are queued is taken only after all of them. */
  lemma PressedAfterQueued(queue: seq<Task>, script: seq<Action>)
    requires script != [] && script[0] == Press
    ensures var taken := Taken(RunEvents(queue, script));
      |taken| > |queue| ==> taken[..|queue| + 1] == queue + [CAPTURE]
  {
    RunFifo(queue, script);
    var taken := Taken(RunEvents(queue, script));
    assert Presses(script) == [CAPTURE] + Presses(script[1..]);
    if |taken| > |queue| {
      calc {
        taken[..|queue| + 1];
        (taken + RunQueue(queue, script))[..|queue| + 1];
        (queue + [CAPTURE] + Presses(script[1..]))[..|queue| + 1];
        queue + [CAPTURE];
      }
    }
  }

  /** One poll per environment: the consumer loop run over the queue as it stands. */
  function Polls(envs: seq<Services>): (script: seq<Action>)
    ensures |script| == |envs|
    ensures forall k :: 0 <= k < |envs| ==> script[k] == Poll(envs[k])
  {
    if envs == [] then [] else [Poll(envs[0])] + Polls(envs[1..])
  }

  function CaptureTasks(queue: seq<Task>): nat
  {
    Occurrences(queue, CAPTURE)
  }

  lemma {:induction false} DrainEmpties(queue: seq<Task>, envs: seq<Services>)
    requires |envs| == |queue|
    ensures RunQueue(queue, Polls(envs)) == []
    decreases |queue|
  {
    if queue != [] {
      var script := Polls(envs);
      assert script[1..] == Polls(envs[1..]);
      RunUnfold(queue, script);
      DrainEmpties(queue[1..], envs[1..]);
    }
  }

  /** Draining a queue with one poll per task empties it and takes every task exactly once, in queue order. */
  lemma DrainTakesAll(queue: seq<Task>, envs: seq<Services>)
    requires |envs| == |queue|
    ensures RunQueue(queue, Polls(envs)) == []
    ensures Taken(RunEvents(queue, Polls(envs))) == queue
  {
    var script := Polls(envs);
    DrainEmpties(queue, envs);
    RunFifo(queue, script);
    NoPresses(envs);
    var taken := Taken(RunEvents(queue, script));
    assert taken + [] == queue + [];
    assert taken + [] == taken && queue + [] == queue;
  }

  lemma CountStep(head: Task, cycle: seq<Event>, later: seq<Event>, x: Event)
    requires !x.Dequeued?
    ensures Occurrences([Dequeued(head)] + cycle + later, x) == Occurrences(cycle, x) + Occurrences(later, x)
  {
    OccurrencesAppend([Dequeued(head)] + cycle, later, x);
    OccurrencesAppend([Dequeued(head)], cycle, x);
    assert [Dequeued(head)][1..] == [];
  }

  /** Draining calls capture once per CAPTURE task and emits exactly one outcome pulse per CAPTURE task. */
  lemma {:induction false} DrainCounts(queue: seq<Task>, envs: seq<Services>)
    requires |envs| == |queue|
    ensures Occurrences(RunEvents(queue, Polls(envs)), CaptureCall) == CaptureTasks(queue)
    ensures Outcomes(RunEvents(queue, Polls(envs))) == CaptureTasks(queue)
    decreases |queue|
  {
    if queue != [] {
      var script := Polls(envs);
      var head := queue[0];
      var cycle := CycleEvents(head, envs[0]);
      var step := [Dequeued(head)] + cycle;
      var later := RunEvents(queue[1..], Polls(envs[1..]));
      assert script[1..] == Polls(envs[1..]);
      RunUnfold(queue, script);
      assert RunEvents(queue, script) == step + later;
      DrainCounts(queue[1..], envs[1..]);
      CycleCounts(head, envs[0]);
      OccurrencesAppend([head], queue[1..], CAPTURE);
      assert queue == [head] + queue[1..];
      CountStep(head, cycle, later, CaptureCall);
      CountStep(head, cycle, later, Pulse(Success));
      CountStep(head, cycle, later, Pulse(Failure));
    }
  }

  lemma {:induction false} NoPresses(envs: seq<Services>)
    ensures Presses(Polls(envs)) == []
  {
    if envs != [] {
      NoPresses(envs[1..]);
      assert Polls(envs)[1..] == Polls(envs[1..]);
    }
  }

  /** One poll on a one-task queue: take it, then run its cycle. */
  lemma PollSingle(task: Task, env: Services)
    ensures RunEvents([task], [Poll(env)]) == [Dequeued(task)] + CycleEvents(task, env)
  {
    var polls := [Poll(env)];
    RunUnfold([task], polls);
    assert polls[1..] == [];
  }

  /** A press on an empty queue, then one poll. */
  lemma PressThenPoll(env: Services)
    ensures RunEvents([], [Press, Poll(env)]) == PressEvents() + RunEvents([CAPTURE], [Poll(env)])
  {
    var script := [Press, Poll(env)];
    RunUnfold([], script);
    assert script[1..] == [Poll(env)];
  }

  /**
   * A press followed by one poll on an empty queue, where both services
   * succeed: the acknowledgement, the queue hand-off, capture, the analysis
   * request for that image, the success pulse and then speech of the
   * extracted description (for a direct text field such as
   * "A red chair near a window.", that text itself: see
   * ResponseText.ExtractDirect and PyText.StripUnique).
   */
  lemma PressThenSuccess(image: seq<Base64.byte>, resp: ResponseText.Response)
    ensures RunEvents([], [Press, Poll(Services(Captured(image), Responded(resp)))])
      == [Pulse(Ack), Enqueued(CAPTURE), Dequeued(CAPTURE), CaptureCall,
          AnalysisCall(DataUrl.ToDataUrl(image)), Pulse(Success), Speak(ResponseText.Extract(resp))]
  {
    var env := Services(Captured(image), Responded(resp));
    var cycle := [CaptureCall, AnalysisCall(DataUrl.ToDataUrl(image)), Pulse(Success), Speak(ResponseText.Extract(resp))];
    assert CycleEvents(CAPTURE, env) == cycle;
    PollSingle(CAPTURE, env);
    PressThenPoll(env);
  }
}
