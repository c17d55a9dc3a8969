/** The container-backed runner of services/dockerRunner.js: the image and
    the shell pipeline per language, the container it creates, and the race
    between the container's exit and a 10-second timeout. */
module DockerRunner {
  import opened Wrappers
  import opened JsString
  import Utf8
  import Base64
  import ProcessRegistry

  // --------------------------------------------------------------- lookups

  /** `getImageForLanguage(language)`. */
  function Image(language: string): string
  {
    var key := ToLower(language);
    if key == "python" then "python:3.9-alpine"
    else if key == "java" then "openjdk:11-jdk-slim"
    else if key == "c" then "gcc:latest"
    else if key == "cpp" then "gcc:latest"
    else if key == "javascript" then "node:16-alpine"
    else "python:3.9-alpine"
  }

  /** The image ignores letter case, c and c++ share the gcc image, and any
      other identifier gets the python image. */
  lemma ImageLookup(language: string)
    ensures Image(ToLower(language)) == Image(language)
    ensures ToLower(language) == "c" || ToLower(language) == "cpp" ==> Image(language) == "gcc:latest"
    ensures !ProcessRegistry.IsKnownName(ToLower(language)) ==> Image(language) == "python:3.9-alpine"
  {
    ToLowerIdempotent(language);
  }

  /** `Buffer.from(code).toString('base64')`: the UTF-8 bytes of the source,
      base64-encoded. */
  function Payload(code: string): string
  {
    Base64.Encode(Utf8.Encode(code))
  }

  /** The file each pipeline decodes the source into, by lower-cased
      identifier; python's for any other. */
  function ScriptFile(key: string): string
  {
    if key == "java" then "Main.java"
    else if key == "c" then "main.c"
    else if key == "cpp" then "main.cpp"
    else if key == "javascript" then "script.js"
    else "main.py"
  }

  /** What each pipeline does after writing the source file. */
  function Continuation(key: string): string
  {
    if key == "java" then "javac Main.java && java Main"
    else if key == "c" then "gcc main.c -o main && ./main"
    else if key == "cpp" then "g++ main.cpp -o main && ./main"
    else if key == "javascript" then "node script.js"
    else "python3 main.py"
  }

  const EchoOpen := "echo \""

  /** The text after the payload: the closing quote and the rest of the line. */
  function AfterPayload(file: string, continuation: string): string
  {
    "\" | base64 -d > " + file + " && " + continuation
  }

  /** `echo "<payload>" | base64 -d > <file> && <continuation>`. */
  function Pipeline(payload: string, file: string, continuation: string): string
  {
    EchoOpen + payload + AfterPayload(file, continuation)
  }

  /** `getExecutionCommand(language, code)`: the five template strings of
      the `commands` table, python's for any other identifier. */
  function Command(language: string, code: string): string
  {
    var key := ToLower(language);
    Pipeline(Payload(code), ScriptFile(key), Continuation(key))
  }

  /** Each pipeline decodes into the file the process-backed runner uses for
      the same identifier. */
  lemma PipelineFileIsRunnerFile(language: string)
    ensures ScriptFile(ToLower(language)) == ProcessRegistry.Filename(language)
  {
  }

  /** Unknown identifiers get python's pipeline. */
  lemma UnknownLanguageGetsPython(language: string, code: string)
    ensures !ProcessRegistry.IsKnownName(ToLower(language)) ==> Command(language, code) == Command("python", code)
  {
    assert ToLower("python") == "python";
  }

  /** The argument of a leading `echo "…"`: the text up to the next double
      quote, as the shell reads it when it holds no `\`, `$` or backquote. */
  function QuotedArgument(cmd: string): Option<string>
  {
    if StartsWith(cmd, EchoOpen) && '"' in cmd[|EchoOpen|..]
    then Some(cmd[|EchoOpen|..][..IndexOf(cmd[|EchoOpen|..], '"')])
    else None
  }

  /** The payload holds no character the shell treats specially inside
      double quotes. */
  lemma PayloadIsInert(code: string)
    ensures '"' !in Payload(code) && '\\' !in Payload(code) && '$' !in Payload(code) && '`' !in Payload(code)
  {
    var p := Payload(code);
    Base64.EncodeIsPayload(Utf8.Encode(code));
    forall k | 0 <= k < |p|
      ensures p[k] != '"' && p[k] != '\\' && p[k] != '$' && p[k] != '`'
    {
      assert Base64.InAlphabet(p[k]) || p[k] == '=';
    }
  }

  /** A leading `echo "…"` reads exactly a payload free of double quotes. */
  lemma {:induction false} QuotedPipeline(payload: string, file: string, continuation: string)
    requires '"' !in payload
    ensures QuotedArgument(Pipeline(payload, file, continuation)) == Some(payload)
  {
    var tail := AfterPayload(file, continuation);
    var rest := payload + tail;
    var cmd := EchoOpen + rest;
    assert Pipeline(payload, file, continuation) == cmd;
    assert cmd[..|EchoOpen|] == EchoOpen;
    assert cmd[|EchoOpen|..] == rest;
    assert rest[|payload|] == tail[0] == '"';
    assert rest[..|payload|] == payload;
    IndexOfAt(rest, '"', |payload|);
  }

  /** Round trip: what `base64 -d` reads from the pipeline decodes to the
      UTF-8 bytes of the source, and those to the source itself. */
  lemma PipelineDeliversSource(language: string, code: string)
    ensures QuotedArgument(Command(language, code)) == Some(Payload(code))
    ensures Base64.Decode(Payload(code)) == Some(Utf8.Encode(code))
    ensures Utf8.Decode(Utf8.Encode(code)) == Some(code)
  {
    var key := ToLower(language);
    PayloadIsInert(code);
    QuotedPipeline(Payload(code), ScriptFile(key), Continuation(key));
    Base64.DecodeEncode(Utf8.Encode(code));
    Utf8.DecodeEncode(code);
  }

  // ----------------------------------------------------------- the container

  datatype HostConfig = HostConfig(autoRemove: bool, networkMode: string, memory: int, memorySwap: int)

  /** The options of `docker.createContainer`. */
  datatype ContainerConfig = ContainerConfig(
    image: string, cmd: seq<string>,
    attachStdout: bool, attachStderr: bool, tty: bool,
    openStdin: bool, stdinOnce: bool, networkDisabled: bool,
    hostConfig: HostConfig)

  const MiB := 1024 * 1024

  function Config(language: string, code: string): ContainerConfig
  {
    ContainerConfig(Image(language), ["sh", "-c", Command(language, code)],
                    true, true, false, true, false, true,
                    HostConfig(true, "none", 256 * MiB, 512 * MiB))
  }

  /** The container has no network, removes itself, may use 256 MiB of memory
      and 512 MiB of memory plus swap, and runs the pipeline through `sh -c`. */
  lemma ConfigIsolates(language: string, code: string)
    ensures Config(language, code).networkDisabled && Config(language, code).hostConfig.networkMode == "none"
    ensures Config(language, code).hostConfig.autoRemove
    ensures Config(language, code).hostConfig.memory == 268435456
    ensures Config(language, code).hostConfig.memorySwap == 536870912
    ensures Config(language, code).hostConfig.memorySwap > Config(language, code).hostConfig.memory
    ensures Config(language, code).cmd == ["sh", "-c", Command(language, code)]
    ensures Config(language, code).image == Image(language)
  {
  }

  // ----------------------------------------------------------------- a run

  /** `{ stdout, stderr, exitCode }`. */
  datatype DockerResult = DockerResult(stdout: string, stderr: string, exitCode: int)

  /** What `runCode` settles with: a result, or a rejection with its message. */
  datatype DockerOutcome = Resolved(result: DockerResult) | Rejected(message: string)

  /** One callback once the output stream is attached. */
  datatype DockerEvent =
    | OutputData(chunk: string)      // `stream.on('data')`
    | StreamError(text: string)      // `stream.on('error')`, the error as a string
    | TimerElapsed                   // the 10 s timer
    | StopFinished(stopped: bool)    // `container.stop()` settles: whether it succeeded
    | WaitResolved(statusCode: int)  // `container.wait()` resolves
    | WaitRejected(message: string)  // `container.wait()` rejects
    | FinishDelayElapsed             // the 100 ms delay after the exit, and the `container.remove()` it awaits, have settled

  /** The note the timeout appends to stderr. */
  function TimeoutNote(stopped: bool): string
  {
    if stopped then "\n\U{23F0} Execution timeout (10 seconds)" else "\n\U{23F0} Execution timeout"
  }

  function TimeoutResult(stdout: string, stderr: string, stopped: bool): DockerResult
  {
    DockerResult(stdout, stderr + TimeoutNote(stopped), -1)
  }

  function CompletionResult(stdout: string, stderr: string, statusCode: int): DockerResult
  {
    DockerResult(Trim(stdout), Trim(stderr), statusCode)
  }

  /** A timeout reports -1 and appends its note to stderr as collected,
      naming the ten seconds only when the container was stopped; a completion
      reports the container's status code with both streams trimmed. */
  lemma ResultShapes(stdout: string, stderr: string, stopped: bool, statusCode: int)
    ensures TimeoutResult(stdout, stderr, stopped).exitCode == -1
    ensures TimeoutResult(stdout, stderr, stopped).stdout == stdout
    ensures StartsWith(TimeoutResult(stdout, stderr, stopped).stderr, stderr)
    ensures EndsWith(TimeoutResult(stdout, stderr, stopped).stderr, TimeoutNote(stopped))
    ensures Contains(TimeoutNote(stopped), "10 seconds") <==> stopped
    ensures CompletionResult(stdout, stderr, statusCode).exitCode == statusCode
    ensures IsTrimmed(CompletionResult(stdout, stderr, statusCode).stdout)
    ensures IsTrimmed(CompletionResult(stdout, stderr, statusCode).stderr)
  {
    var t := TimeoutResult(stdout, stderr, stopped).stderr;
    assert t[..|stderr|] == stderr;
    assert t[|t| - |TimeoutNote(stopped)|..] == TimeoutNote(stopped);
    TenSecondsNamed(stopped);
    TrimSpec(stdout);
    TrimSpec(stderr);
  }

  lemma TenSecondsNamed(stopped: bool)
    ensures Contains(TimeoutNote(stopped), "10 seconds") <==> stopped
  {
    var n := TimeoutNote(stopped);
    if stopped {
      assert n[22..32] == "10 seconds";
      assert OccursAt(n, "10 seconds", 22);
    } else {
      ContainsChars(n, "10 seconds");
      assert '1' in "10 seconds";
      assert '1' !in n;
    }
  }

  /** Which callback settled the run, with what it read: the value is
      `OutcomeOf` it. */
  datatype DockerSettlement =
    | TimedOut(stdout: string, stderr: string, stopped: bool)
    | Completed(stdout: string, stderr: string, statusCode: int)
    | WaitFailed(message: string)

  function OutcomeOf(s: DockerSettlement): DockerOutcome
  {
    match s
    case TimedOut(stdout, stderr, stopped) => Resolved(TimeoutResult(stdout, stderr, stopped))
    case Completed(stdout, stderr, statusCode) => Resolved(CompletionResult(stdout, stderr, statusCode))
    case WaitFailed(message) => Rejected(message)
  }

  /** The collected streams, and the state of the timers and the wait. */
  datatype Output = Output(stdout: string, stderr: string)
  datatype Pending = Pending(timerArmed: bool, stopping: bool, waiting: bool, finishing: Option<int>)
  datatype DockerRun = DockerRun(io: Output, pending: Pending, settled: Option<DockerSettlement>)

  function DockerStart(): DockerRun
  {
    DockerRun(Output("", ""), Pending(true, false, true, None), None)
  }

  function SettleDocker(settled: Option<DockerSettlement>, r: DockerSettlement): Option<DockerSettlement>
  {
    if settled.Some? then settled else Some(r)
  }

  /** One callback. The timer's callback settles only when its awaited
      `container.stop()` has settled; `wait().then` clears the timer and
      settles once the 100 ms delay and the `container.remove()` it awaits
      have settled. */
  function DockerStep(d: DockerRun, e: DockerEvent): DockerRun
  {
    match e
    case OutputData(chunk) => d.(io := d.io.(stdout := d.io.stdout + chunk))
    case StreamError(text) => d.(io := d.io.(stderr := d.io.stderr + text))
    case TimerElapsed =>
      if d.pending.timerArmed then d.(pending := d.pending.(timerArmed := false, stopping := true)) else d
    case StopFinished(stopped) =>
      if d.pending.stopping
      then d.(pending := d.pending.(stopping := false),
              settled := SettleDocker(d.settled, TimedOut(d.io.stdout, d.io.stderr, stopped)))
      else d
    case WaitResolved(statusCode) =>
      if d.pending.waiting
      then d.(pending := d.pending.(timerArmed := false, waiting := false, finishing := Some(statusCode)))
      else d
    case WaitRejected(message) =>
      if d.pending.waiting
      then d.(pending := d.pending.(waiting := false), settled := SettleDocker(d.settled, WaitFailed(message)))
      else d
    case FinishDelayElapsed =>
      if d.pending.finishing.Some?
      then d.(pending := d.pending.(finishing := None),
              settled := SettleDocker(d.settled, Completed(d.io.stdout, d.io.stderr, d.pending.finishing.value)))
      else d
  }

  function DockerRunOf(d: DockerRun, es: seq<DockerEvent>): DockerRun
    decreases |es|
  {
    if es == [] then d else DockerStep(DockerRunOf(d, es[..|es| - 1]), es[|es| - 1])
  }

  /** The streams collected over `es`. */
  function Observed(es: seq<DockerEvent>): Output
  {
    DockerRunOf(DockerStart(), es).io
  }

  const Unavailable := "Docker is not available. Please ensure Docker is running."

  /** The awaited setup step of `runCode` that threw, in the order they run:
      `createContainer`, `start`, the stdin `attach` (made only when there is
      input), the output `attach`. */
  datatype SetupFailure =
    | CreateFailed(message: string)
    | StartFailed(message: string)
    | StdinAttachFailed(message: string)
    | OutputAttachFailed(message: string)

  /** Whether the input had been written when setup stopped: the stdin write
      comes before the output `attach`, so only a failing output attach, or
      no failure, finds it written. */
  predicate InputWritten(setupError: Option<SetupFailure>)
  {
    setupError.None? || setupError.value.OutputAttachFailed?
  }

  /** The value of `runCode(language, code, input)`: it throws without a
      Docker handle; a failing create, start or attach (`setupError`) is
      rethrown with a prefix, whichever step failed; otherwise the callbacks `events` decide, and a
      rejected wait propagates as it is. */
  function DockerRunValue(available: bool, setupError: Option<SetupFailure>, events: seq<DockerEvent>): Option<DockerOutcome>
  {
    if !available then Some(Rejected(Unavailable))
    else if setupError.Some? then Some(Rejected("Failed to execute code: " + setupError.value.message))
    else
      match DockerRunOf(DockerStart(), events).settled
      case None => None
      case Some(st) => Some(OutcomeOf(st))
  }

  // -------------------------------------------------------------- lemmas

  lemma DockerRunLast(d: DockerRun, es: seq<DockerEvent>, e: DockerEvent)
    ensures DockerRunOf(d, es + [e]) == DockerStep(DockerRunOf(d, es), e)
  {
    assert (es + [e])[..|es|] == es;
  }

  lemma {:induction false} DockerRunConcat(d: DockerRun, a: seq<DockerEvent>, b: seq<DockerEvent>)
    ensures DockerRunOf(d, a + b) == DockerRunOf(DockerRunOf(d, a), b)
    decreases |b|
  {
    if b == [] {
      assert a + b == a;
    } else {
      var b0, x := b[..|b| - 1], b[|b| - 1];
      assert b == b0 + [x];
      assert a + b == (a + b0) + [x];
      calc {
        DockerRunOf(d, a + b);
        { DockerRunLast(d, a + b0, x); }
        DockerStep(DockerRunOf(d, a + b0), x);
        { DockerRunConcat(d, a, b0); }
        DockerStep(DockerRunOf(DockerRunOf(d, a), b0), x);
        { DockerRunLast(DockerRunOf(d, a), b0, x); }
        DockerRunOf(DockerRunOf(d, a), b);
      }
    }
  }

  lemma {:induction false} DockerSettlementStable(d: DockerRun, es: seq<DockerEvent>)
    ensures d.settled.Some? ==> DockerRunOf(d, es).settled == d.settled
    decreases |es|
  {
    if es != [] {
      DockerSettlementStable(d, es[..|es| - 1]);
    }
  }

  predicate IsOutput(e: DockerEvent)
  {
    e.OutputData? || e.StreamError?
  }

  /** Stream callbacks change only the collected streams. */
  lemma {:induction false} OnlyOutput(d: DockerRun, es: seq<DockerEvent>)
    requires forall k :: 0 <= k < |es| ==> IsOutput(es[k])
    ensures DockerRunOf(d, es).pending == d.pending && DockerRunOf(d, es).settled == d.settled
    decreases |es|
  {
    if es != [] {
      OnlyOutput(d, es[..|es| - 1]);
    }
  }

  /** Once the container's exit is seen before the timer fired, the timer
      is cleared, and once the 100 ms delay and `container.remove()` have
      settled the run resolves with the streams collected by then (output
      arriving during `remove()` included) and the status code; nothing after that matters. */
  lemma ExitBeforeTimerCompletes(pre: seq<DockerEvent>, statusCode: int, mid: seq<DockerEvent>, post: seq<DockerEvent>)
    requires forall k :: 0 <= k < |pre| ==> IsOutput(pre[k])
    requires forall k :: 0 <= k < |mid| ==> IsOutput(mid[k])
    ensures !DockerRunOf(DockerStart(), pre + [WaitResolved(statusCode)] + mid).pending.timerArmed
    ensures DockerRunOf(DockerStart(), pre + [WaitResolved(statusCode)] + mid + [FinishDelayElapsed] + post).settled
         == Some(Completed(Observed(pre + [WaitResolved(statusCode)] + mid).stdout,
                           Observed(pre + [WaitResolved(statusCode)] + mid).stderr, statusCode))
  {
    var d0 := DockerStart();
    var a := pre + [WaitResolved(statusCode)];
    var d1 := DockerRunOf(d0, pre);
    OnlyOutput(d0, pre);
    var d2 := DockerStep(d1, WaitResolved(statusCode));
    DockerRunLast(d0, pre, WaitResolved(statusCode));
    assert d2.pending == Pending(false, false, false, Some(statusCode)) && d2.settled == None;
    var d3 := DockerRunOf(d2, mid);
    OnlyOutput(d2, mid);
    DockerRunConcat(d0, a, mid);
    var b := a + mid + [FinishDelayElapsed];
    DockerRunLast(d0, a + mid, FinishDelayElapsed);
    var d4 := DockerStep(d3, FinishDelayElapsed);
    assert d4.settled == Some(Completed(d3.io.stdout, d3.io.stderr, statusCode));
    DockerRunConcat(d0, b, post);
    DockerSettlementStable(d4, post);
  }

  /** If the timer fires while the container is still running, the run
      settles when the stop settles, with -1, the streams seen then and the
      note; nothing after that matters. */
  lemma TimerBeforeExitTimesOut(pre: seq<DockerEvent>, mid: seq<DockerEvent>, stopped: bool, post: seq<DockerEvent>)
    requires forall k :: 0 <= k < |pre| ==> IsOutput(pre[k])
    requires forall k :: 0 <= k < |mid| ==> IsOutput(mid[k])
    ensures DockerRunOf(DockerStart(), pre + [TimerElapsed] + mid + [StopFinished(stopped)] + post).settled
         == Some(TimedOut(Observed(pre + [TimerElapsed] + mid).stdout, Observed(pre + [TimerElapsed] + mid).stderr, stopped))
  {
    var d0 := DockerStart();
    var a := pre + [TimerElapsed];
    var d1 := DockerRunOf(d0, pre);
    OnlyOutput(d0, pre);
    var d2 := DockerStep(d1, TimerElapsed);
    DockerRunLast(d0, pre, TimerElapsed);
    assert d2.pending.stopping && d2.settled == None;
    var d3 := DockerRunOf(d2, mid);
    OnlyOutput(d2, mid);
    DockerRunConcat(d0, a, mid);
    var b := a + mid + [StopFinished(stopped)];
    DockerRunLast(d0, a + mid, StopFinished(stopped));
    var d4 := DockerStep(d3, StopFinished(stopped));
    assert d4.settled == Some(TimedOut(d3.io.stdout, d3.io.stderr, stopped));
    DockerRunConcat(d0, b, post);
    DockerSettlementStable(d4, post);
  }

  // -------------------------------------------------------------- method


  /** A settlement only reports what the container's `wait()` delivered in
      `es`: a completion carries a status code `wait()` resolved with, a
      failure the message it rejected with. */
  predicate FromWait(d: DockerRun, es: seq<DockerEvent>)
  {
    (d.pending.finishing.Some? ==> WaitResolved(d.pending.finishing.value) in es) &&
    (d.settled.Some? && d.settled.value.Completed? ==> WaitResolved(d.settled.value.statusCode) in es) &&
    (d.settled.Some? && d.settled.value.WaitFailed? ==> WaitRejected(d.settled.value.message) in es)
  }

  lemma StepFromWait(d: DockerRun, es: seq<DockerEvent>, e: DockerEvent)
    requires FromWait(d, es)
    ensures FromWait(DockerStep(d, e), es + [e])
  {
    forall x | x in es
      ensures x in es + [e]
    {
    }
  }

  lemma {:induction false} SettlementFromWait(es: seq<DockerEvent>)
    ensures FromWait(DockerRunOf(DockerStart(), es), es)
    decreases |es|
  {
    if es != [] {
      var es0, e := es[..|es| - 1], es[|es| - 1];
      SettlementFromWait(es0);
      StepFromWait(DockerRunOf(DockerStart(), es0), es0, e);
      assert es == es0 + [e];
    }
  }

  /** `runCode` throws the fixed message without a Docker handle, rethrows a
      setup failure with its prefix, and otherwise reports only what the
      container delivered: an exit code other than the timeout's -1 is one
      `wait()` resolved with, and a rejection is `wait()`'s own. */
  lemma DockerRunValueSpec(available: bool, setupError: Option<SetupFailure>, events: seq<DockerEvent>)
    ensures !available ==> DockerRunValue(available, setupError, events) == Some(Rejected(Unavailable))
    ensures available && setupError.Some? ==>
      DockerRunValue(available, setupError, events) == Some(Rejected("Failed to execute code: " + setupError.value.message))
    ensures available && setupError.None? && DockerRunValue(available, setupError, events).Some? ==>
      var o := DockerRunValue(available, setupError, events).value;
      (o.Resolved? && o.result.exitCode != -1 ==> WaitResolved(o.result.exitCode) in events) &&
      (o.Rejected? ==> WaitRejected(o.message) in events)
  {
    SettlementFromWait(events);
  }
  /** `runCode`: after `createContainer`, `start` and the stdin `attach`,
      the input goes to the container's stdin when there is any, so it is
      written even when the output `attach` then fails; after that the
      callbacks run in the order `events` fire. */
  method RunInContainer(available: bool, setupError: Option<SetupFailure>, input: string, events: seq<DockerEvent>)
    returns (outcome: Option<DockerOutcome>, stdin: seq<string>)
    ensures outcome == DockerRunValue(available, setupError, events)
    ensures stdin == if available && InputWritten(setupError) && input != "" then [input + "\n"] else []
  {
    stdin := [];
    if !available {
      return Some(Rejected(Unavailable)), stdin;
    }
    if setupError.Some? && !setupError.value.OutputAttachFailed? {
      return Some(Rejected("Failed to execute code: " + setupError.value.message)), stdin;
    }
    if input != "" {
      stdin := stdin + [input + "\n"];
    }
    if setupError.Some? {
      return Some(Rejected("Failed to execute code: " + setupError.value.message)), stdin;
    }
    var stdout, stderr := "", "";
    var timerArmed, stopping, waiting := true, false, true;
    var finishing: Option<int> := None;
    var settled: Option<DockerSettlement> := None;
    var i := 0;
    while i < |events|
      invariant 0 <= i <= |events|
      invariant DockerRun(Output(stdout, stderr), Pending(timerArmed, stopping, waiting, finishing), settled)
             == DockerRunOf(DockerStart(), events[..i])
    {
      assert events[..i + 1] == events[..i] + [events[i]];
      DockerRunLast(DockerStart(), events[..i], events[i]);
      match events[i] {
        case OutputData(chunk) =>
          stdout := stdout + chunk;
        case StreamError(text) =>
          stderr := stderr + text;
        case TimerElapsed =>
          if timerArmed {
            timerArmed := false;
            stopping := true;
          }
        case StopFinished(stopped) =>
          if stopping {
            stopping := false;
            if settled.None? {
              settled := Some(TimedOut(stdout, stderr, stopped));
            }
          }
        case WaitResolved(statusCode) =>
          if waiting {
            waiting := false;
            timerArmed := false;
            finishing := Some(statusCode);
          }
        case WaitRejected(message) =>
          if waiting {
            waiting := false;
            if settled.None? {
              settled := Some(WaitFailed(message));
            }
          }
        case FinishDelayElapsed =>
          if finishing.Some? {
            var statusCode := finishing.value;
            finishing := None;
            if settled.None? {
              settled := Some(Completed(stdout, stderr, statusCode));
            }
          }
      }
      i := i + 1;
    }
    assert events[..i] == events;
    outcome := if settled.Some? then Some(OutcomeOf(settled.value)) else None;
  }
}
