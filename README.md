# Vision assistance hat controller — a Dafny model

The controller runs on a Raspberry Pi. A push button queues a capture task,
and a single consumer loop works through the queue. For each task it takes a
webcam picture and sends it as a JPEG data URL to a vision model. It then
reads the one-sentence description out of the response and speaks it through
espeak. A vibration motor gives haptic feedback: a short acknowledgement
pulse on every press, a 0.5 s pulse on success, and a 1.0 s pulse on failure.

This project models the decision logic of `scr/main.py` and proves what it
guarantees:

- `Device.Controller` is a class that holds the shared task queue (a `seq`)
  and the trace of effects in the order they happen. The trace records
  pulses, queue hand-offs, capture and analysis calls, and speech.
  `ButtonPressed` is the button callback. `TakeTask` is `empty()`/`get()`.
  `AnalyzeImage` is `analyze_image`, with `None` standing for the exception
  it raises. `ProcessTask` is one processing cycle. `PollQueue` is one turn of the
  consumer loop. `Drain` and `Run` are bounded runs of it. The callback
  thread and the consumer thread are modelled as interleaved calls (`Run`
  takes the interleaving as a script).
- `Pipeline` holds the same behaviour as pure functions of the queue,
  together with the lemmas about it:
  - `CycleEvents` and `CyclePhases` describe one cycle, as
    Idle → Capturing → Analyzing → Speaking/Failed → Idle.
  - `RunQueue` and `RunEvents` describe an interleaving.
  - The first-in-first-out discipline is `Taken(trace) + queue == Added(trace)`.
- `ResponseText` models `extract_text`. The attribute probing becomes a
  tagged union of response shapes, and `PyText` gives Python's `str.strip`.
- `Speech` models the quote-stripping sanitiser of `speak` and the shell
  command line it builds.
- `DataUrl` and `Base64` model `to_data_url`. The encoder follows section 4
  of RFC 4648, and a decoder is proved to invert it.

The external services are parameters. A `Services` value says what capture
and analysis would return in that cycle. `Captured(image)` stands for a
successful `fswebcam` run followed by reading the file back, because both
happen before the analysis request and both raise on failure. The analysis
outcome is the service's response, or a failure.

## Model

| member | source | states |
|---|---|---|
| `Device.Controller.constructor` | scr/main.py:157 | the task queue and the trace start empty, in the Idle phase |
| `Device.Controller.Vibrate` | scr/main.py:131-135 | one pulse of the given kind is appended to the trace; nothing else changes |
| `Device.Controller.ButtonPressed` | scr/main.py:162-166 | the ack pulse and then the enqueue of exactly one `"capture"` task are appended; that task goes to the tail of the queue; the FIFO invariant is kept |
| `Device.Controller.TakeTask` | scr/main.py:174-175 | on an empty queue nothing happens; otherwise the head is returned and removed, and its `Dequeued` event is logged |
| `Device.Controller.AnalyzeImage` | scr/main.py:84-108 | the capture call, then (only on an image) the analysis request with that image's data URL are appended; the result is the extracted description exactly when both services succeed, and None (the raised exception) otherwise; the phase ends at Analyzing after a capture and at Capturing after a failed one |
| `Device.Controller.ProcessTask` | scr/main.py:177-189 | the trace grows by exactly `CycleEvents(task, env)` and the phases visited are `CyclePhases`; the queue is untouched; the controller ends Idle |
| `Device.Controller.PollQueue` | scr/main.py:173-191 | one loop turn: the queue, the trace and the phases visited move exactly as `StepQueue`, `StepEvents` and `StepPhases` say for a poll; the FIFO invariant is kept |
| `Device.Controller.Run` | scr/main.py:162-191 | any interleaving of presses and polls leaves the queue at `RunQueue`, extends the trace by `RunEvents` and the phases visited by `RunPhases` (a legal walk, by `RunPath`); the FIFO invariant is kept |
| `Device.Controller.Drain` | scr/main.py:173-191 | polling once per queued task empties the queue; the trace and the phases visited grow as `RunEvents` and `RunPhases` say for those polls; the tasks taken are the old queue, in order |
| `Pipeline.Millis` | scr/main.py:165-189 | the pulse lengths of the source: 200 ms to acknowledge a press, 500 ms on success, 1000 ms on failure (the durations passed to `vibrate` at lines 165, 182 and 189) |
| `Pipeline.PulsesDistinct` | scr/main.py:165-189 | the three pulses differ in length, shortest for the acknowledgement and longest for a failure, so they can be told apart by touch |
| `Pipeline.CycleEvents` | scr/main.py:177-189 | the effects of processing one dequeued task: nothing for a task other than `"capture"`; otherwise capture, the analysis request for the image's data URL, then the success pulse and speech of the extracted description, with the failure pulse in place of whatever follows a failing service. Its properties are the lemmas below |
| `Pipeline.CyclePhases` | scr/main.py:177-189 | the phases one cycle passes, from Idle back to Idle; `CyclePath` proves them a legal walk of the state machine |
| `Pipeline.AnalyzeEvents` | scr/main.py:84-104 | the effects of `analyze_image` up to its return or exception: the capture call, then the analysis request only when there is an image |
| `Pipeline.Description` | scr/main.py:84-108 | what `analyze_image` returns: the extracted description when both services succeed, and None where it raises |
| `Pipeline.ReportEvents` | scr/main.py:179-189 | the feedback on an outcome: the success pulse followed by speech of the description, or the failure pulse alone |
| `Pipeline.BlankDescriptionSpoken` | scr/main.py:63-108 | a whitespace-only `output_text` is not a failure: `analyze_image` returns the empty string, which is then spoken after the success pulse |
| `Pipeline.CycleSplit` | scr/main.py:177-189 | a capture cycle is `analyze_image`'s effects followed by the feedback on its outcome, and `analyze_image` returns exactly when capture and analysis both succeed |
| `Pipeline.CycleShape` | scr/main.py:84-108 | a non-capture task has no effects; a capture cycle starts with its single capture call, makes no queue operation and no ack, and any analysis request carries the captured image's data URL |
| `Pipeline.CaptureFailure` | scr/main.py:84-189 | a failed capture ends with the failure pulse and has no analysis request, no success pulse and no speech |
| `Pipeline.AnalysisFailure` | scr/main.py:84-189 | a failed analysis after a capture sends the image's data URL, then ends with the failure pulse, with no success pulse and no speech |
| `Pipeline.CycleSuccess` | scr/main.py:179-184 | a successful cycle ends with the success pulse and then the only speak call, whose text is exactly the description extracted from the response; there is no failure pulse |
| `Pipeline.CycleCounts` | scr/main.py:177-189 | a capture cycle calls capture exactly once and emits exactly one outcome pulse (success or failure); other tasks do neither |
| `Pipeline.CyclePath` | scr/main.py:177-189 | each cycle is a path of legal transitions from Idle back to Idle; it passes Speaking iff both services succeed; it passes Failed iff a capture task fails; it passes Analyzing iff capture succeeded |
| `Pipeline.PressEvents` | scr/main.py:162-166 | a button press gives the acknowledgement pulse and then the enqueue of one `"capture"` task |
| `Pipeline.PollEvents` | scr/main.py:174-189 | a poll gives nothing on an empty queue; otherwise the dequeue of the head followed by that task's cycle |
| `Pipeline.StepQueue` | scr/main.py:166-175 | a press appends `"capture"` at the tail; a poll removes the head if there is one |
| `Pipeline.StepEvents` | scr/main.py:162-189 | the effects of one press or one poll |
| `Pipeline.RunQueue` | scr/main.py:157-191 | the queue after an interleaving of presses and polls, step by step |
| `Pipeline.RunEvents` | scr/main.py:157-191 | the effects of an interleaving of presses and polls, in the order the steps happen |
| `Pipeline.StepPhases` | scr/main.py:162-189 | the phases one step passes after Idle: none for a press, those of the cycle a poll runs |
| `Pipeline.RunPhases` | scr/main.py:157-191 | the phases the consumer passes over an interleaving, step by step |
| `Pipeline.RunPath` | scr/main.py:171-191 | over any interleaving the consumer's phases form one legal walk of the state machine from Idle back to Idle |
| `Pipeline.StepFifo` | scr/main.py:162-177 | a press queues exactly one capture task and sends one ack; a poll queues nothing, and what it takes followed by the rest of the queue is the old queue |
| `Pipeline.RunAdds` | scr/main.py:166 | over any interleaving, the tasks queued are exactly one `"capture"` per press, in press order |
| `Pipeline.RunFifo` | scr/main.py:157-177 | over any interleaving, the tasks taken followed by the final queue are the initial queue followed by one task per press: no loss, no duplication, no reordering |
| `Pipeline.RunAcks` | scr/main.py:165 | over any interleaving, the number of ack pulses equals the number of presses |
| `Pipeline.RunKeepsFifo` | scr/main.py:157-177 | the queue invariant `Taken(trace) + queue == Added(trace)` is preserved by every interleaving |
| `Pipeline.StepKeepsFifo` | scr/main.py:157-177 | the queue invariant is preserved by a single press or poll |
| `Pipeline.PressedAfterQueued` | scr/main.py:166-175 | a press made while tasks are queued is taken right after all of them and never before any of them |
| `Pipeline.DrainTakesAll` | scr/main.py:173-177 | one poll per queued task empties the queue and takes each task exactly once, in enqueue order |
| `Pipeline.DrainCounts` | scr/main.py:173-189 | draining makes one capture call and emits one outcome pulse per `"capture"` task on the queue |
| `Pipeline.PollSingle` | scr/main.py:174-189 | a poll on a one-task queue takes that task and then runs exactly its cycle |
| `Pipeline.PressThenPoll` | scr/main.py:162-175 | a press on an empty queue followed by a poll gives the press's ack and enqueue, then exactly what a poll of the one queued task gives |
| `Pipeline.PressThenSuccess` | scr/main.py:162-189 | a press on an idle device followed by one poll where both services succeed gives exactly: ack, enqueue, dequeue, capture, analysis of that image's data URL, success pulse, then speech of the extracted description |
| `Pipeline.Polls` | scr/main.py:173-175 | one poll action per environment, in order |
| `ResponseText.FirstInParts` | scr/main.py:72-73 | the index of the first part typed `"output_text"` or `"text"`; None iff no part is |
| `ResponseText.FirstTextPart` | scr/main.py:71-73 | the first text-typed position, scanning items then parts in order; None iff there is none |
| `ResponseText.FirstTextPartAt` | scr/main.py:71-73 | any position that is text-typed with none before it is the one the scan finds |
| `ResponseText.Extract` | scr/main.py:63-79 | `extract_text`: a present `output_text` decides; otherwise the first text-typed nested part; otherwise, or where reading the text raises, the string form of the response. Its properties are the lemmas below |
| `ResponseText.ExtractDirect` | scr/main.py:67-79 | a response with a string `output_text` yields that text stripped; one whose `output_text` has no `strip()` method (None, a number), so that `strip()` raises, yields the string form; in both cases the nested output is never consulted |
| `ResponseText.ExtractFirstPart` | scr/main.py:71-75 | otherwise the first text-typed part gives the result: its text stripped, or the fallback when reading that text raises |
| `ResponseText.ExtractFallback` | scr/main.py:71-79 | with no text-typed part, or neither attribute, the result is the response's string form |
| `ResponseText.ExtractShape` | scr/main.py:63-79 | extraction never fails; it yields the string form or a stripped text with no surrounding whitespace |
| `PyText.LeadingSpace` | scr/main.py:68 | the count of whitespace characters at the front, stopped by the first non-whitespace one |
| `PyText.TrailingSpace` | scr/main.py:68 | the count of whitespace characters at the end, stopped by the last non-whitespace one |
| `PyText.Strip` | scr/main.py:68 | the result is no longer than the input and is empty or starts and ends with non-whitespace |
| `PyText.StripInfix` | scr/main.py:68 | the result is an infix of the input, everything removed around it is whitespace, and it is empty only for an all-whitespace input |
| `PyText.StripUnique` | scr/main.py:68 | any split into whitespace, a non-whitespace-bounded core and whitespace strips to that core |
| `PyText.StripIdempotent` | scr/main.py:68 | stripping twice equals stripping once |
| `Speech.Remove` | scr/main.py:115 | `replace(c, "")`: the result has no `c`, only characters of the input, and is the input when it held no `c` |
| `Speech.Sanitize` | scr/main.py:115 | the sanitised text contains no `"` and no `'` |
| `Speech.SanitizeIsUnquoted` | scr/main.py:115 | the two replace passes equal the one-pass filter: every other character is kept, in its original order |
| `Speech.SanitizeAppend` | scr/main.py:115 | the sanitiser acts character by character: it distributes over concatenation |
| `Speech.SanitizeQuoteFree` | scr/main.py:115 | text without quotes is spoken unchanged |
| `Speech.SanitizeIdempotent` | scr/main.py:115 | sanitising twice equals sanitising once |
| `Speech.Command` | scr/main.py:115-120 | the shell command line `speak` starts, as written: `espeak "`, the sanitised text, then the closing double quote and the `--stdout` pipe into `aplay -D plughw:2,0` |
| `Speech.CommandQuoting` | scr/main.py:119-120 | in the command line, the characters between the double quotes are exactly the sanitised text, and no double quote closes them early (which does not make them literal to the shell: see Findings) |
| `Speech.CommandExpandsDollar` | scr/main.py:115-120 | as written, the description "$5" passes the sanitiser unchanged, so the command line carries `$5` between its double quotes: a `$` followed by a digit, which is a positional-parameter expansion (section 2.6.2 of the POSIX Shell Command Language), and so the text fails the literal-text condition |
| `Speech.SafeCommand` | scr/main.py:115-120 | the corrected command line: the same, with the sanitised text inside single quotes |
| `Speech.SafeCommandQuoting` | scr/main.py:115-120 | with single quotes, every sanitised text is passed literally and unbroken |
| `Base64.Letter` | scr/main.py:57 | the alphabet letter of a 6-bit value is never the pad character, and decoding it gives the value back |
| `Base64.LetterOfValue` | scr/main.py:57 | every character with a value is the letter of that value, so the alphabet is a bijection onto 0..63 |
| `Base64.EncodeGroup` | scr/main.py:57 | three bytes give four alphabet letters |
| `Base64.EncodeTail` | scr/main.py:57 | one trailing byte gives two letters and `==`, two give three letters and `=` |
| `Base64.Encode` | scr/main.py:57 | the output has length 4·⌈n/3⌉ |
| `Base64.EncodeAlphabet` | scr/main.py:57 | the output uses only alphabet letters and `=`, and has `=` only in the last two positions |
| `Base64.DecodeEncode` | scr/main.py:57 | decoding the encoding gives back every byte string |
| `DataUrl.ToDataUrl` | scr/main.py:58 | the URL is `data:image/jpeg;base64,` followed immediately by the encoding of the image bytes |
| `DataUrl.ParseToDataUrl` | scr/main.py:54-58 | parsing the data URL gives back exactly the image bytes |
| `DataUrl.ToDataUrlInjective` | scr/main.py:54-58 | different images give different data URLs |

## Findings

| source | as written | input that shows it | evidently intended | confidence | as-written member | corrected member |
|---|---|---|---|---|---|---|
| scr/main.py:115-120 | the quote-stripped text still goes inside shell double quotes, where `$`, a backtick and a backslash keep their meaning (section 2.2.3 of the POSIX Shell Command Language) | a description such as "It costs $5." passes the sanitiser unchanged and is spoken as "It costs ." (`$5` expands to nothing). A description ending in a backslash escapes the closing quote and breaks the command | quote stripping is there to keep the shell from altering or breaking the command, so the text should reach espeak literally | not executed; high for `$`, backtick and backslash being special inside double quotes | `Speech.Command`, `Speech.CommandExpandsDollar` | `Speech.SafeCommand`, `Speech.SafeCommandQuoting` |

`Pipeline`'s `Speak` event records the argument of `speak`, not the shell line. The
corrected command line is `SafeCommand`: it puts the already quote-free text
inside single quotes, where no character is special.

## Left out

- GPIO setup, pin writes and cleanup (scr/main.py:140-151, 196-200) are hardware library calls. `vibrate` is modelled only as a pulse event carrying its kind. `Pipeline.Millis` gives each kind's duration in milliseconds (200, 500, 1000).
- The 500 ms debounce (scr/main.py:213) is done by the GPIO library. The model assumes the press events it receives are already debounced.
- Concurrency and thread safety of `Queue` (scr/main.py:157): the callback and the consumer are modelled as interleaved, atomic operations on one sequence. Overlapping pulses from the two threads are not modelled.
- The `fswebcam` run, the OpenAI request and the `espeak | aplay` pipeline (scr/main.py:45-47, 93-104, 119-123) are external. Only their outcomes are modelled, as `Services`. The prompt, model name and token limits of the request are not part of the model. `speak` swallows its own errors, so speaking is one event that cannot fail.
- Reading the image file (scr/main.py:56-57) is I/O. A read failure is treated as a capture failure, since both raise before the analysis request.
- Each poll, its capture, network request and speech included, is one atomic step, and so is each press. A press that in reality arrives in the middle of a cycle is therefore ordered after that whole cycle in `RunEvents`; its acknowledgement pulse cannot fall between the cycle's events.
- The `while True` loop, the 0.1 s sleep and the KeyboardInterrupt shutdown (scr/main.py:173, 191, 216-220) are replaced by bounded runs (`Run`, `Drain`) over a script of presses and polls.
- Console output (`print`) is not modelled, and the model assumes `print` never raises. A `print` that raised (an encoding error on the console, a closed stdout) would change the outcome: at scr/main.py:107 a success would become a failure; at line 183 the success pulse would be followed by the failure pulse, against `CycleCounts`; at line 164 the press would give no ack and queue nothing; at line 188, inside the `except` block, the exception would escape `process_tasks`: nothing in the `while True` loop (line 173) catches it and the handler at line 218 catches only `KeyboardInterrupt`, so the consumer loop ends and the process exits without `destroy()`.
- An exception raised by `vibrate(0.5)` itself would also reach the failure branch (scr/main.py:182-189). GPIO writes are not modelled, so the model treats pulses as never failing.
- `ResponseText.Extract`: an `output` attribute that is not iterable, or an item `content` that is not iterable, would also fall back to `str(resp)`. The model types them as sequences, so those cases cannot arise. A `text` on a matching part that has no `strip()` method (absent, None, a number), or an `output_text` that has none (None, a number), is modelled: it gives the fallback. An absent `output_text` is the `Nested` shape, where the nested scan decides.
- `ResponseText.Extract`: a bytes-like `output_text` or `text` is not modelled. Its `strip()` succeeds, so the source returns bytes; `process_tasks` then gives the success pulse, `speak` raises a TypeError at its `replace` (scr/main.py:115, outside its `try`), and the failure pulse follows with no speech.
- `Pipeline.Description`: an empty result is not treated as a failure, because the source does not treat it as one (scr/main.py:63-79, 179-184). An empty or whitespace-only `output_text` gives the success pulse and then speech of `""` (`Pipeline.BlankDescriptionSpoken`), and a response with no text part gives the success pulse and speech of `str(resp)`.
- `Base64`: the decoder exists only to state the round trip. It accepts non-zero trailing bits in a padded final group, which section 3.5 of RFC 4648 lets a decoder reject.
