/** `handleProcess` of services/JavaScriptRunner.js: the listeners a spawned
    program's streams, the child process and three timers call back into.
    A run is the sequence of callbacks that fire; each step below is one
    callback, and the promise's value is the first result any of them
    resolves with. */
module ProcessHandler {
  import opened Wrappers
  import opened JsString
  import opened ProcessRegistry
  import opened ProcessResults

  /** One callback of `handleProcess`. */
  datatype RunEvent =
    | StdoutData(chunk: string)     // `stdout.on('data')`
    | StderrData(chunk: string)     // `stderr.on('data')`
    | PromptDelayElapsed            // the 100 ms timer armed on the first prompt
    | InputTimerElapsed             // the 1.5 s fallback timer
    | Closed(code: ExitCode)        // `on('close')`
    | SpawnFailed(message: string)  // `on('error')`
    | OverallTimerElapsed           // the 15 s timer

  /** A call on the child's stdin. */
  datatype StdinOp = Write(text: string) | EndOfInput

  /** Which callback settled the promise, with the streams it saw; the
      value it resolved with is `Outcome` of it. */
  datatype Settlement =
    | ClosedWith(stdout: string, stderr: string, code: ExitCode)
    | ErroredWith(stdout: string, message: string)
    | TimedOutWith(stdout: string)

  /** The object the settling callback passes to `resolve`. */
  function Outcome(l: Lang, s: Settlement): ExecResult
  {
    match s
    case ClosedWith(stdout, stderr, code) => CloseResult(l, stdout, stderr, code)
    case ErroredWith(stdout, message) => ErrorResult(l, stdout, message)
    case TimedOutWith(stdout) => TimeoutResult(l, stdout)
  }

  /** What the stream listeners have accumulated. */
  datatype Streams = Streams(stdout: string, stderr: string)

  /** `hasPrompt`, with the number of 100 ms timers armed so far and whether
      one is still to fire. */
  datatype PromptState = PromptState(hasPrompt: bool, timers: nat, pending: bool)

  /** `inputSent`, with the calls made on the child's stdin so far. */
  datatype Delivery = Delivery(sent: bool, stdin: seq<StdinOp>)

  /** Whether the 1.5 s and the 15 s timer are still to fire, and
      `childProcess.killed`. */
  datatype Timers = Timers(inputArmed: bool, overallArmed: bool, killed: bool)

  /** The closure state of one `handleProcess` call, with the timers it arms;
      `cleanups` counts the calls of `cleanupFiles`, and `settled` says how
      the promise settled. */
  datatype Handler = Handler(
    lang: Lang, input: string,
    io: Streams,
    prompt: PromptState,
    delivery: Delivery,
    timers: Timers,
    cleanups: nat,
    settled: Option<Settlement>)

  function Start(l: Lang, input: string): Handler
  {
    Handler(l, input, Streams("", ""), PromptState(false, 0, false), Delivery(false, []),
            Timers(true, true, false), 0, None)
  }

  /** What `sendInput()` leaves: the input and a newline, then end of input,
      once; with no input (an empty string is falsy), end of input on every
      call. */
  function InputDelivery(input: string, d: Delivery): Delivery
  {
    if !d.sent && input != "" then Delivery(true, d.stdin + [Write(input + "\n"), EndOfInput])
    else if input == "" then Delivery(true, d.stdin + [EndOfInput])
    else d
  }

  /** `resolve(r)`: a promise settles once. */
  function Settle(settled: Option<Settlement>, r: Settlement): Option<Settlement>
  {
    if settled.Some? then settled else Some(r)
  }

  /** `stdout.on('data')`: accumulate, and arm the prompt delay on the first
      chunk that looks like a prompt. */
  function OnStdout(h: Handler, output: string): Handler
  {
    h.(io := h.io.(stdout := h.io.stdout + output),
       prompt := if IsPrompt(output) && !h.prompt.hasPrompt
                 then PromptState(true, h.prompt.timers + 1, true)
                 else h.prompt)
  }

  /** `stderr.on('data')`: accumulate, dropping JVM notices on the java path. */
  function OnStderr(h: Handler, errorOutput: string): Handler
  {
    if h.lang != Java || KeepJavaStderrChunk(errorOutput)
    then h.(io := h.io.(stderr := h.io.stderr + errorOutput))
    else h
  }

  /** The 100 ms timer: `sendInput()`. */
  function OnPromptDelay(h: Handler): Handler
  {
    if h.prompt.pending
    then h.(prompt := h.prompt.(pending := false), delivery := InputDelivery(h.input, h.delivery))
    else h
  }

  /** The 1.5 s timer: `sendInput()` unless the input went already. */
  function OnInputTimer(h: Handler): Handler
  {
    if !h.timers.inputArmed then h
    else if h.delivery.sent then h.(timers := h.timers.(inputArmed := false))
    else h.(timers := h.timers.(inputArmed := false), delivery := InputDelivery(h.input, h.delivery))
  }

  /** `on('close')`: clear the fallback timer, clean up, resolve. The java
      path's reassignment of the two buffers is folded into `CloseResult`:
      nothing reads them afterwards except a later `resolve`, which has no
      effect. */
  function OnClose(h: Handler, code: ExitCode): Handler
  {
    h.(timers := h.timers.(inputArmed := false), cleanups := h.cleanups + 1,
       settled := Settle(h.settled, ClosedWith(h.io.stdout, h.io.stderr, code)))
  }

  /** `on('error')`: clear the fallback timer, clean up, resolve. */
  function OnError(h: Handler, message: string): Handler
  {
    h.(timers := h.timers.(inputArmed := false), cleanups := h.cleanups + 1,
       settled := Settle(h.settled, ErroredWith(h.io.stdout, message)))
  }

  /** The 15 s timer, never cleared: kill the child unless already killed,
      and resolve. */
  function OnOverallTimer(h: Handler): Handler
  {
    if !h.timers.overallArmed then h
    else if h.timers.killed then h.(timers := h.timers.(overallArmed := false))
    else h.(timers := Timers(h.timers.inputArmed, false, true),
            settled := Settle(h.settled, TimedOutWith(h.io.stdout)))
  }

  function Step(h: Handler, e: RunEvent): Handler
  {
    match e
    case StdoutData(c) => OnStdout(h, c)
    case StderrData(c) => OnStderr(h, c)
    case PromptDelayElapsed => OnPromptDelay(h)
    case InputTimerElapsed => OnInputTimer(h)
    case Closed(code) => OnClose(h, code)
    case SpawnFailed(message) => OnError(h, message)
    case OverallTimerElapsed => OnOverallTimer(h)
  }

  /** The state after the callbacks `es`, in order. */
  function Run(h: Handler, es: seq<RunEvent>): Handler
    decreases |es|
  {
    if es == [] then h else Step(Run(h, es[..|es| - 1]), es[|es| - 1])
  }

  // ------------------------------------------------- reference definitions

  /** Everything the program wrote to stdout. */
  function StdoutOf(es: seq<RunEvent>): string
    decreases |es|
  {
    if es == [] then ""
    else if es[|es| - 1].StdoutData? then StdoutOf(es[..|es| - 1]) + es[|es| - 1].chunk
    else StdoutOf(es[..|es| - 1])
  }

  /** What it wrote to stderr, less the chunks the java path drops. */
  function StderrOf(l: Lang, es: seq<RunEvent>): string
    decreases |es|
  {
    if es == [] then ""
    else
      var e := es[|es| - 1];
      if e.StderrData? && (l != Java || KeepJavaStderrChunk(e.chunk)) then StderrOf(l, es[..|es| - 1]) + e.chunk
      else StderrOf(l, es[..|es| - 1])
  }

  predicate PromptSeen(es: seq<RunEvent>)
  {
    exists k :: 0 <= k < |es| && es[k].StdoutData? && IsPrompt(es[k].chunk)
  }

  predicate Ends(e: RunEvent)
  {
    e.Closed? || e.SpawnFailed?
  }

  /** The callbacks that resolve the promise when nothing has before. */
  predicate Resolving(e: RunEvent)
  {
    Ends(e) || e.OverallTimerElapsed?
  }

  function EndCount(es: seq<RunEvent>): nat
    decreases |es|
  {
    if es == [] then 0 else EndCount(es[..|es| - 1]) + (if Ends(es[|es| - 1]) then 1 else 0)
  }

  /** The result the first resolving callback settles with, given the streams so far. */
  function Resolution(l: Lang, stdout: string, stderr: string, e: RunEvent): ExecResult
    requires Resolving(e)
  {
    match e
    case Closed(code) => CloseResult(l, stdout, stderr, code)
    case SpawnFailed(message) => ErrorResult(l, stdout, message)
    case OverallTimerElapsed => TimeoutResult(l, stdout)
  }

  /** The promise's value, once settled. */
  function PromiseValue(h: Handler): Option<ExecResult>
  {
    match h.settled
    case None => None
    case Some(st) => Some(Outcome(h.lang, st))
  }

  // ----------------------------------------------------------- step lemmas

  lemma RunLast(h: Handler, es: seq<RunEvent>, e: RunEvent)
    ensures Run(h, es + [e]) == Step(Run(h, es), e)
  {
    assert (es + [e])[..|es|] == es;
  }

  lemma {:induction false} RunConcat(h: Handler, a: seq<RunEvent>, b: seq<RunEvent>)
    ensures Run(h, a + b) == Run(Run(h, a), b)
    decreases |b|
  {
    if b == [] {
      assert a + b == a;
    } else {
      var b0, x := b[..|b| - 1], b[|b| - 1];
      assert b == b0 + [x];
      assert a + b == (a + b0) + [x];
      calc {
        Run(h, a + b);
        { RunLast(h, a + b0, x); }
        Step(Run(h, a + b0), x);
        { RunConcat(h, a, b0); }
        Step(Run(Run(h, a), b0), x);
        { RunLast(Run(h, a), b0, x); }
        Run(Run(h, a), b);
      }
    }
  }

  lemma StepStdout(h: Handler, e: RunEvent)
    ensures Step(h, e).io.stdout == if e.StdoutData? then h.io.stdout + e.chunk else h.io.stdout
  {
    match e
    case StdoutData(c) =>
    case StderrData(c) =>
    case PromptDelayElapsed =>
    case InputTimerElapsed =>
    case Closed(code) =>
    case SpawnFailed(message) =>
    case OverallTimerElapsed =>
  }

  lemma StepStderr(h: Handler, e: RunEvent)
    ensures Step(h, e).io.stderr
         == if e.StderrData? && (h.lang != Java || KeepJavaStderrChunk(e.chunk)) then h.io.stderr + e.chunk else h.io.stderr
  {
    match e
    case StdoutData(c) =>
    case StderrData(c) =>
    case PromptDelayElapsed =>
    case InputTimerElapsed =>
    case Closed(code) =>
    case SpawnFailed(message) =>
    case OverallTimerElapsed =>
  }

  lemma StepKeepsParameters(h: Handler, e: RunEvent)
    ensures Step(h, e).lang == h.lang && Step(h, e).input == h.input
  {
    match e
    case StdoutData(c) =>
    case StderrData(c) =>
    case PromptDelayElapsed =>
    case InputTimerElapsed =>
    case Closed(code) =>
    case SpawnFailed(message) =>
    case OverallTimerElapsed =>
  }

  /** How the prompt bookkeeping evolves. */
  predicate PromptBookkeeping(h: Handler)
  {
    && h.prompt.timers <= 1
    && (h.prompt.timers == 1 <==> h.prompt.hasPrompt)
    && (h.prompt.pending ==> h.prompt.hasPrompt)
  }

  lemma StepPrompt(h: Handler, e: RunEvent)
    requires PromptBookkeeping(h)
    ensures PromptBookkeeping(Step(h, e))
    ensures Step(h, e).prompt.hasPrompt <==> h.prompt.hasPrompt || (e.StdoutData? && IsPrompt(e.chunk))
  {
    match e
    case StdoutData(c) =>
    case StderrData(c) =>
    case PromptDelayElapsed =>
    case InputTimerElapsed =>
    case Closed(code) =>
    case SpawnFailed(message) =>
    case OverallTimerElapsed =>
  }

  /** What the child's stdin has received: with input, nothing or exactly
      the input and a newline followed by end of input; without input, only
      ends of input, one for each timer that has fired. */
  predicate StdinDiscipline(h: Handler)
  {
    && (h.input != "" ==> h.delivery.stdin == (if h.delivery.sent then [Write(h.input + "\n"), EndOfInput] else []))
    && (h.input == "" ==>
         && (forall k :: 0 <= k < |h.delivery.stdin| ==> h.delivery.stdin[k] == EndOfInput)
         && |h.delivery.stdin| <= (if h.prompt.hasPrompt && !h.prompt.pending then 1 else 0)
                         + (if h.timers.inputArmed then 0 else 1))
  }

  lemma StepStdinWithInput(h: Handler, e: RunEvent)
    requires h.input != "" && StdinDiscipline(h)
    ensures StdinDiscipline(Step(h, e))
  {
    match e
    case StdoutData(c) =>
    case StderrData(c) =>
    case PromptDelayElapsed =>
    case InputTimerElapsed =>
    case Closed(code) =>
    case SpawnFailed(message) =>
    case OverallTimerElapsed =>
  }

  lemma StepStdinNoInput(h: Handler, e: RunEvent)
    requires h.input == "" && StdinDiscipline(h) && PromptBookkeeping(h)
    ensures StdinDiscipline(Step(h, e))
  {
    match e
    case StdoutData(c) =>
    case StderrData(c) =>
    case PromptDelayElapsed =>
    case InputTimerElapsed =>
    case Closed(code) =>
    case SpawnFailed(message) =>
    case OverallTimerElapsed =>
  }

  lemma StepDelivery(h: Handler, e: RunEvent)
    ensures h.delivery.sent ==> Step(h, e).delivery.sent
    ensures !Ends(e) && (h.timers.inputArmed || h.delivery.sent) ==> Step(h, e).timers.inputArmed || Step(h, e).delivery.sent
    ensures e == InputTimerElapsed && (h.timers.inputArmed || h.delivery.sent) ==> Step(h, e).delivery.sent
  {
    match e
    case StdoutData(c) =>
    case StderrData(c) =>
    case PromptDelayElapsed =>
    case InputTimerElapsed =>
    case Closed(code) =>
    case SpawnFailed(message) =>
    case OverallTimerElapsed =>
  }

  lemma StepSettlement(h: Handler, e: RunEvent)
    ensures h.settled.Some? ==> Step(h, e).settled == h.settled
    ensures h.settled.None? && !Resolving(e) ==> Step(h, e).settled.None?
    ensures h.settled.None? && h.timers.overallArmed && !h.timers.killed && e.Closed?
      ==> Step(h, e).settled == Some(ClosedWith(h.io.stdout, h.io.stderr, e.code))
    ensures h.settled.None? && h.timers.overallArmed && !h.timers.killed && e.SpawnFailed?
      ==> Step(h, e).settled == Some(ErroredWith(h.io.stdout, e.message))
    ensures h.settled.None? && h.timers.overallArmed && !h.timers.killed && e.OverallTimerElapsed?
      ==> Step(h, e).settled == Some(TimedOutWith(h.io.stdout))
  {
    match e
    case StdoutData(c) =>
    case StderrData(c) =>
    case PromptDelayElapsed =>
    case InputTimerElapsed =>
    case Closed(code) =>
    case SpawnFailed(message) =>
    case OverallTimerElapsed =>
  }

  /** A close settles the promise only with its own exit code. */
  lemma StepSettlesFromClose(h: Handler, e: RunEvent)
    ensures h.settled.None? && Step(h, e).settled.Some? && Step(h, e).settled.value.ClosedWith?
      ==> e == Closed(Step(h, e).settled.value.code)
  {
    match e
    case StdoutData(c) =>
    case StderrData(c) =>
    case PromptDelayElapsed =>
    case InputTimerElapsed =>
    case Closed(code) =>
    case SpawnFailed(message) =>
    case OverallTimerElapsed =>
  }

  lemma StepCleanups(h: Handler, e: RunEvent)
    ensures Step(h, e).cleanups == if Ends(e) then h.cleanups + 1 else h.cleanups
  {
    match e
    case StdoutData(c) =>
    case StderrData(c) =>
    case PromptDelayElapsed =>
    case InputTimerElapsed =>
    case Closed(code) =>
    case SpawnFailed(message) =>
    case OverallTimerElapsed =>
  }

  lemma StepOverallTimer(h: Handler, e: RunEvent)
    ensures Step(h, e).timers.overallArmed == (h.timers.overallArmed && !e.OverallTimerElapsed?)
    ensures Step(h, e).timers.killed == (h.timers.killed || (e.OverallTimerElapsed? && h.timers.overallArmed))
  {
    match e
    case StdoutData(c) =>
    case StderrData(c) =>
    case PromptDelayElapsed =>
    case InputTimerElapsed =>
    case Closed(code) =>
    case SpawnFailed(message) =>
    case OverallTimerElapsed =>
  }

  // ------------------------------------------------------------ run lemmas

  /** The streams the result is built from are the program's output, with
      only the java path's JVM notices dropped from stderr; the language and
      input never change. */
  lemma {:induction false} StreamsAccumulate(l: Lang, input: string, es: seq<RunEvent>)
    ensures Run(Start(l, input), es).io.stdout == StdoutOf(es)
    ensures Run(Start(l, input), es).io.stderr == StderrOf(l, es)
    ensures Run(Start(l, input), es).lang == l && Run(Start(l, input), es).input == input
    decreases |es|
  {
    if es != [] {
      var pre := es[..|es| - 1];
      StreamsAccumulate(l, input, pre);
      StepStdout(Run(Start(l, input), pre), es[|es| - 1]);
      StepStderr(Run(Start(l, input), pre), es[|es| - 1]);
      StepKeepsParameters(Run(Start(l, input), pre), es[|es| - 1]);
    }
  }

  /** The prompt delay is armed at most once, and exactly when some stdout
      chunk looked like a prompt. */
  lemma {:induction false} PromptArmedOnce(l: Lang, input: string, es: seq<RunEvent>)
    ensures PromptBookkeeping(Run(Start(l, input), es))
    ensures Run(Start(l, input), es).prompt.timers <= 1
    ensures Run(Start(l, input), es).prompt.timers == 1 <==> PromptSeen(es)
    decreases |es|
  {
    if es != [] {
      var pre := es[..|es| - 1];
      var e := es[|es| - 1];
      PromptArmedOnce(l, input, pre);
      StepPrompt(Run(Start(l, input), pre), e);
      assert es == pre + [e];
      if PromptSeen(es) && !(e.StdoutData? && IsPrompt(e.chunk)) {
        var k :| 0 <= k < |es| && es[k].StdoutData? && IsPrompt(es[k].chunk);
        assert k < |pre| && pre[k] == es[k];
      }
      if PromptSeen(pre) {
        var k :| 0 <= k < |pre| && pre[k].StdoutData? && IsPrompt(pre[k].chunk);
        assert es[k] == pre[k];
      }
      if e.StdoutData? && IsPrompt(e.chunk) {
        assert es[|es| - 1] == e;
      }
    }
  }

  /** With input, the child's stdin receives nothing or exactly the input and
      a newline followed by end of input, never twice; without input, at most
      two ends of input and no write. */
  lemma {:induction false} StdinIsDisciplined(l: Lang, input: string, es: seq<RunEvent>)
    ensures StdinDiscipline(Run(Start(l, input), es))
    ensures input == "" ==>
      |Run(Start(l, input), es).delivery.stdin| <= 2 && Write(input + "\n") !in Run(Start(l, input), es).delivery.stdin
    ensures input != "" ==>
      || Run(Start(l, input), es).delivery.stdin == []
      || Run(Start(l, input), es).delivery.stdin == [Write(input + "\n"), EndOfInput]
    decreases |es|
  {
    StreamsAccumulate(l, input, es);
    if es != [] {
      var pre := es[..|es| - 1];
      StdinIsDisciplined(l, input, pre);
      PromptArmedOnce(l, input, pre);
      if input == "" {
        StepStdinNoInput(Run(Start(l, input), pre), es[|es| - 1]);
      } else {
        StepStdinWithInput(Run(Start(l, input), pre), es[|es| - 1]);
      }
    }
  }

  lemma {:induction false} NoEndKeepsFallback(l: Lang, input: string, es: seq<RunEvent>)
    requires forall k :: 0 <= k < |es| ==> !Ends(es[k])
    ensures Run(Start(l, input), es).timers.inputArmed || Run(Start(l, input), es).delivery.sent
    decreases |es|
  {
    if es != [] {
      var pre := es[..|es| - 1];
      NoEndKeepsFallback(l, input, pre);
      StepDelivery(Run(Start(l, input), pre), es[|es| - 1]);
    }
  }

  lemma {:induction false} SentStays(h: Handler, es: seq<RunEvent>)
    ensures h.delivery.sent ==> Run(h, es).delivery.sent
    decreases |es|
  {
    if es != [] {
      SentStays(h, es[..|es| - 1]);
      StepDelivery(Run(h, es[..|es| - 1]), es[|es| - 1]);
    }
  }

  /** The fallback timer delivers the input whenever it fires before the
      program ended, prompt or no prompt; once delivered it stays delivered. */
  lemma FallbackDelivers(l: Lang, input: string, pre: seq<RunEvent>, post: seq<RunEvent>)
    requires forall k :: 0 <= k < |pre| ==> !Ends(pre[k])
    ensures Run(Start(l, input), pre + [InputTimerElapsed] + post).delivery.sent
    ensures input != "" ==>
      Run(Start(l, input), pre + [InputTimerElapsed] + post).delivery.stdin == [Write(input + "\n"), EndOfInput]
  {
    var h0 := Start(l, input);
    var es := pre + [InputTimerElapsed] + post;
    NoEndKeepsFallback(l, input, pre);
    RunLast(h0, pre, InputTimerElapsed);
    StepDelivery(Run(h0, pre), InputTimerElapsed);
    RunConcat(h0, pre + [InputTimerElapsed], post);
    SentStays(Run(h0, pre + [InputTimerElapsed]), post);
    StdinIsDisciplined(l, input, es);
    StreamsAccumulate(l, input, es);
  }

  /** A settled promise keeps its value. */
  lemma {:induction false} SettlementStable(h: Handler, es: seq<RunEvent>)
    ensures h.settled.Some? ==> Run(h, es).settled == h.settled
    decreases |es|
  {
    if es != [] {
      SettlementStable(h, es[..|es| - 1]);
      StepSettlement(Run(h, es[..|es| - 1]), es[|es| - 1]);
    }
  }

  /** The cleanup count, and the overall timer's state, follow the callbacks. */
  lemma {:induction false} CountersFollowEvents(l: Lang, input: string, es: seq<RunEvent>)
    ensures Run(Start(l, input), es).cleanups == EndCount(es)
    ensures Run(Start(l, input), es).timers.overallArmed <==> OverallTimerElapsed !in es
    ensures Run(Start(l, input), es).timers.killed <==> OverallTimerElapsed in es
    decreases |es|
  {
    if es != [] {
      var pre := es[..|es| - 1];
      CountersFollowEvents(l, input, pre);
      StepCleanups(Run(Start(l, input), pre), es[|es| - 1]);
      StepOverallTimer(Run(Start(l, input), pre), es[|es| - 1]);
      assert es == pre + [es[|es| - 1]];
    }
  }

  /** Until a close, an error or the overall timer, nothing is settled. */
  lemma {:induction false} PendingUntilResolving(l: Lang, input: string, es: seq<RunEvent>)
    requires forall k :: 0 <= k < |es| ==> !Resolving(es[k])
    ensures Run(Start(l, input), es).settled == None
    decreases |es|
  {
    if es != [] {
      var pre := es[..|es| - 1];
      PendingUntilResolving(l, input, pre);
      StepSettlement(Run(Start(l, input), pre), es[|es| - 1]);
    }
  }

  /** A promise settled by a close carries the code of a close that happened. */
  lemma {:induction false} ClosedSettlementFromEvent(l: Lang, input: string, es: seq<RunEvent>)
    ensures Run(Start(l, input), es).settled.Some? && Run(Start(l, input), es).settled.value.ClosedWith?
      ==> Closed(Run(Start(l, input), es).settled.value.code) in es
    decreases |es|
  {
    if es != [] {
      var pre := es[..|es| - 1];
      var e := es[|es| - 1];
      ClosedSettlementFromEvent(l, input, pre);
      StepSettlement(Run(Start(l, input), pre), e);
      StepSettlesFromClose(Run(Start(l, input), pre), e);
      assert es == pre + [e];
    }
  }

  /** The run reports `done` only if the program closed with exit code 0. */
  lemma DoneCameFromExitZero(l: Lang, input: string, es: seq<RunEvent>)
    ensures PromiseValue(Run(Start(l, input), es)).Some? && PromiseValue(Run(Start(l, input), es)).value.status == Done
      ==> Closed(Code(0)) in es
  {
    var h := Run(Start(l, input), es);
    StreamsAccumulate(l, input, es);
    ClosedSettlementFromEvent(l, input, es);
    if h.settled.Some? && h.settled.value.ClosedWith? {
      var s := h.settled.value;
      CloseResultSpec(l, s.stdout, s.stderr, s.code);
    }
  }

  /** The promise's value is decided by the first close, error or overall
      timeout, from the output seen before it; nothing after it matters, and
      before it the promise is pending. */
  lemma FirstResolutionWins(l: Lang, input: string, pre: seq<RunEvent>, e: RunEvent, post: seq<RunEvent>)
    requires forall k :: 0 <= k < |pre| ==> !Resolving(pre[k])
    requires Resolving(e)
    ensures PromiseValue(Run(Start(l, input), pre)) == None
    ensures PromiseValue(Run(Start(l, input), pre + [e] + post))
         == Some(Resolution(l, StdoutOf(pre), StderrOf(l, pre), e))
  {
    var h0 := Start(l, input);
    var h := Run(h0, pre);
    PendingUntilResolving(l, input, pre);
    StreamsAccumulate(l, input, pre);
    CountersFollowEvents(l, input, pre);
    assert OverallTimerElapsed !in pre by {
      forall k | 0 <= k < |pre|
        ensures pre[k] != OverallTimerElapsed
      {
        assert !Resolving(pre[k]);
      }
    }
    StepSettlement(h, e);
    RunLast(h0, pre, e);
    RunConcat(h0, pre + [e], post);
    SettlementStable(Run(h0, pre + [e]), post);
    StreamsAccumulate(l, input, pre + [e] + post);
  }

  // ----------------------------------------------------------------- class

  /** The closure of one `handleProcess(childProcess, language, filePath,
      input, resolve)` call: its variables, the timers it armed, and the
      promise it resolves. Each callback is a method that updates them. */
  class ProcessHandle {
    const lang: Lang
    const filePath: string
    const input: string
    const dir: ScratchDir
    /** The scratch directory's files when the handler was attached. */
    ghost const origFiles: set<string>

    var stdout: string
    var stderr: string
    var inputSent: bool
    var hasPrompt: bool
    ghost var promptTimers: nat
    var promptTimerPending: bool
    var inputTimerArmed: bool
    var overallTimerArmed: bool
    var killed: bool
    /** The calls made on `childProcess.stdin`. */
    var stdin: seq<StdinOp>
    ghost var cleanups: nat
    /** What the settling callback built its `resolve` argument from. */
    var settled: Option<Settlement>

    ghost function State(): Handler
      reads this
    {
      Handler(lang, input, Streams(stdout, stderr), PromptState(hasPrompt, promptTimers, promptTimerPending),
              Delivery(inputSent, stdin), Timers(inputTimerArmed, overallTimerArmed, killed),
              cleanups, settled)
    }

    /** The directory has been cleaned once a close or an error came. */
    ghost predicate Valid()
      reads this, dir
    {
      dir.files == if cleanups > 0
                      then AfterCleanup(origFiles, dir.undeletable, Artifacts(lang, filePath))
                      else origFiles
    }

    constructor (l: Lang, path: string, text: string, d: ScratchDir)
      ensures State() == Start(l, text) && Valid()
      ensures this.lang == l && this.filePath == path && this.input == text && this.dir == d
      ensures origFiles == d.files
    {
      lang, filePath, input, dir := l, path, text, d;
      origFiles := d.files;
      stdout, stderr := "", "";
      inputSent, hasPrompt := false, false;
      promptTimers := 0;
      promptTimerPending, inputTimerArmed, overallTimerArmed, killed := false, true, true, false;
      stdin := [];
      cleanups := 0;
      settled := None;
    }

    /** `sendInput()`. */
    method SendInput()
      modifies this
      ensures State() == old(State()).(delivery := InputDelivery(input, old(State()).delivery))
      ensures settled == old(settled)
    {
      if !inputSent && input != "" {
        stdin := stdin + [Write(input + "\n")];
        stdin := stdin + [EndOfInput];
        inputSent := true;
      } else if input == "" {
        stdin := stdin + [EndOfInput];
        inputSent := true;
      }
    }

    method OnStdoutData(output: string)
      requires Valid()
      modifies this
      ensures State() == OnStdout(old(State()), output) && Valid()
    {
      stdout := stdout + output;
      if IsPrompt(output) && !hasPrompt {
        hasPrompt := true;
        promptTimers := promptTimers + 1;
        promptTimerPending := true;
      }
    }

    method OnStderrData(errorOutput: string)
      requires Valid()
      modifies this
      ensures State() == OnStderr(old(State()), errorOutput) && Valid()
    {
      if lang == Java {
        if !Contains(errorOutput, "JAVA_TOOL_OPTIONS") && !Contains(errorOutput, "Picked up") {
          stderr := stderr + errorOutput;
        }
      } else {
        stderr := stderr + errorOutput;
      }
    }

    method OnPromptDelayElapsed()
      requires Valid()
      modifies this
      ensures State() == OnPromptDelay(old(State())) && Valid()
    {
      if promptTimerPending {
        promptTimerPending := false;
        SendInput();
      }
    }

    method OnInputTimerElapsed()
      requires Valid()
      modifies this
      ensures State() == OnInputTimer(old(State())) && Valid()
    {
      if inputTimerArmed {
        inputTimerArmed := false;
        if !inputSent {
          SendInput();
        }
      }
    }

    /** `cleanupFiles(language, filePath)`; a second call finds nothing more
        to delete. */
    method CleanupFiles()
      requires Valid()
      modifies this, dir
      ensures State() == old(State()).(cleanups := old(cleanups) + 1)
      ensures settled == old(settled)
      ensures dir.files == AfterCleanup(origFiles, dir.undeletable, Artifacts(lang, filePath))
    {
      if cleanups > 0 {
        AfterCleanupIdempotent(origFiles, dir.undeletable, Artifacts(lang, filePath));
      }
      var warned := dir.Cleanup(lang, filePath);
      cleanups := cleanups + 1;
    }

    method OnClosed(code: ExitCode)
      requires Valid()
      modifies this, dir
      ensures State() == OnClose(old(State()), code) && Valid()
    {
      inputTimerArmed := false;
      CleanupFiles();
      if settled.None? {
        settled := Some(ClosedWith(stdout, stderr, code));
      }
    }

    method OnSpawnFailed(message: string)
      requires Valid()
      modifies this, dir
      ensures State() == OnError(old(State()), message) && Valid()
    {
      inputTimerArmed := false;
      CleanupFiles();
      if settled.None? {
        settled := Some(ErroredWith(stdout, message));
      }
    }

    method OnOverallTimerElapsed()
      requires Valid()
      modifies this
      ensures State() == OnOverallTimer(old(State())) && Valid()
    {
      if overallTimerArmed {
        overallTimerArmed := false;
        if !killed {
          killed := true;
          if settled.None? {
            settled := Some(TimedOutWith(stdout));
          }
        }
      }
    }

    /** The callback an event runs. */
    method Dispatch(e: RunEvent)
      requires Valid()
      modifies this, dir
      ensures State() == Step(old(State()), e) && Valid()
    {
      match e {
        case StdoutData(output) => OnStdoutData(output);
        case StderrData(errorOutput) => OnStderrData(errorOutput);
        case PromptDelayElapsed => OnPromptDelayElapsed();
        case InputTimerElapsed => OnInputTimerElapsed();
        case Closed(code) => OnClosed(code);
        case SpawnFailed(message) => OnSpawnFailed(message);
        case OverallTimerElapsed => OnOverallTimerElapsed();
      }
    }
  }

  /** `handleProcess`: attaches the callbacks and runs them in the order
      `events` fire, deleting the run's artifacts from `dir` on close and on
      error. */
  method HandleProcess(l: Lang, filePath: string, input: string, events: seq<RunEvent>, dir: ScratchDir)
    returns (outcome: Option<ExecResult>, stdin: seq<StdinOp>)
    modifies dir
    ensures outcome == PromiseValue(Run(Start(l, input), events))
    ensures stdin == Run(Start(l, input), events).delivery.stdin
    ensures dir.files == if EndCount(events) > 0
                         then AfterCleanup(old(dir.files), dir.undeletable, Artifacts(l, filePath))
                         else old(dir.files)
  {
    var p := new ProcessHandle(l, filePath, input, dir);
    var i := 0;
    while i < |events|
      invariant 0 <= i <= |events|
      invariant p.dir == dir && p.lang == l && p.filePath == filePath && p.origFiles == old(dir.files)
      invariant p.Valid() && p.State() == Run(Start(l, input), events[..i])
      modifies p, dir
    {
      assert events[..i + 1] == events[..i] + [events[i]];
      RunLast(Start(l, input), events[..i], events[i]);
      p.Dispatch(events[i]);
      i := i + 1;
    }
    assert events[..i] == events;
    CountersFollowEvents(l, input, events);
    outcome := if p.settled.Some? then Some(Outcome(l, p.settled.value)) else None;
    stdin := p.stdin;
  }
}
