/** `runCode` of services/JavaScriptRunner.js and its compile helpers
    (`compileJava`, `compileC`, `compileCpp`): write the source, compile it
    for java, c and c++, and hand the program to `handleProcess`. */
module ProcessRunner {
  import opened Wrappers
  import opened JsString
  import opened ProcessRegistry
  import opened ProcessResults
  import opened ProcessHandler

  // ------------------------------------------------------------- compiling

  /** One callback of a compile helper. */
  datatype CompileEvent =
    | CompilerStderr(chunk: string)   // `compileProcess.stderr.on('data')`
    | CompilerClosed(code: ExitCode)  // `compileProcess.on('close')`
    | CompilerFailed(message: string) // `compileProcess.on('error')`
    | CompileTimerElapsed             // the 10 s timer

  /** `compileStderr`, the 10 s timer, `compileProcess.killed`, and how the
      helper's promise settled. */
  datatype Compilation = Compilation(stderr: string, timerArmed: bool, killed: bool, settled: Option<CompileOutcome>)

  function CompileStart(): Compilation
  {
    Compilation("", true, false, None)
  }

  function SettleCompile(settled: Option<CompileOutcome>, r: CompileOutcome): Option<CompileOutcome>
  {
    if settled.Some? then settled else Some(r)
  }

  /** One callback of `compileJava`, `compileC` or `compileCpp` for `l`. */
  function CompileStep(l: Lang, c: Compilation, e: CompileEvent): Compilation
  {
    match e
    case CompilerStderr(chunk) => c.(stderr := c.stderr + chunk)
    case CompilerClosed(code) => c.(settled := SettleCompile(c.settled, CompileCloseOutcome(l, c.stderr, code)))
    case CompilerFailed(message) => c.(settled := SettleCompile(c.settled, CompileErrorOutcome(l, message)))
    case CompileTimerElapsed =>
      if !c.timerArmed then c
      else if c.killed then c.(timerArmed := false)
      else c.(timerArmed := false, killed := true, settled := SettleCompile(c.settled, CompileTimeoutOutcome(l)))
  }

  function CompileRun(l: Lang, c: Compilation, es: seq<CompileEvent>): Compilation
    decreases |es|
  {
    if es == [] then c else CompileStep(l, CompileRun(l, c, es[..|es| - 1]), es[|es| - 1])
  }

  /** The compiler's whole stderr. */
  function CompilerStderrOf(es: seq<CompileEvent>): string
    decreases |es|
  {
    if es == [] then ""
    else if es[|es| - 1].CompilerStderr? then CompilerStderrOf(es[..|es| - 1]) + es[|es| - 1].chunk
    else CompilerStderrOf(es[..|es| - 1])
  }

  predicate CompileResolving(e: CompileEvent)
  {
    !e.CompilerStderr?
  }

  /** What the first settling callback resolves with, given the stderr so far. */
  function CompileResolution(l: Lang, stderr: string, e: CompileEvent): CompileOutcome
    requires CompileResolving(e)
  {
    match e
    case CompilerClosed(code) => CompileCloseOutcome(l, stderr, code)
    case CompilerFailed(message) => CompileErrorOutcome(l, message)
    case CompileTimerElapsed => CompileTimeoutOutcome(l)
  }

  lemma CompileRunLast(l: Lang, c: Compilation, es: seq<CompileEvent>, e: CompileEvent)
    ensures CompileRun(l, c, es + [e]) == CompileStep(l, CompileRun(l, c, es), e)
  {
    assert (es + [e])[..|es|] == es;
  }

  lemma {:induction false} CompileRunConcat(l: Lang, c: Compilation, a: seq<CompileEvent>, b: seq<CompileEvent>)
    ensures CompileRun(l, c, a + b) == CompileRun(l, CompileRun(l, c, a), b)
    decreases |b|
  {
    if b == [] {
      assert a + b == a;
    } else {
      var b0, x := b[..|b| - 1], b[|b| - 1];
      assert b == b0 + [x];
      assert a + b == (a + b0) + [x];
      calc {
        CompileRun(l, c, a + b);
        { CompileRunLast(l, c, a + b0, x); }
        CompileStep(l, CompileRun(l, c, a + b0), x);
        { CompileRunConcat(l, c, a, b0); }
        CompileStep(l, CompileRun(l, CompileRun(l, c, a), b0), x);
        { CompileRunLast(l, CompileRun(l, c, a), b0, x); }
        CompileRun(l, CompileRun(l, c, a), b);
      }
    }
  }

  /** Before any settling callback the helper has only collected stderr:
      nothing settled, the timer armed, the process not killed. */
  lemma {:induction false} CompilePending(l: Lang, es: seq<CompileEvent>)
    requires forall k :: 0 <= k < |es| ==> !CompileResolving(es[k])
    ensures CompileRun(l, CompileStart(), es) == Compilation(CompilerStderrOf(es), true, false, None)
    decreases |es|
  {
    if es != [] {
      CompilePending(l, es[..|es| - 1]);
    }
  }

  /** A settled compile helper keeps its value. */
  lemma {:induction false} CompileSettlementStable(l: Lang, c: Compilation, es: seq<CompileEvent>)
    ensures c.settled.Some? ==> CompileRun(l, c, es).settled == c.settled
    decreases |es|
  {
    if es != [] {
      CompileSettlementStable(l, c, es[..|es| - 1]);
    }
  }

  /** The first close, error or timeout decides the compile result, from the
      stderr collected before it. */
  lemma CompileFirstResolutionWins(l: Lang, pre: seq<CompileEvent>, e: CompileEvent, post: seq<CompileEvent>)
    requires forall k :: 0 <= k < |pre| ==> !CompileResolving(pre[k])
    requires CompileResolving(e)
    ensures CompileRun(l, CompileStart(), pre).settled == None
    ensures CompileRun(l, CompileStart(), pre + [e] + post).settled
         == Some(CompileResolution(l, CompilerStderrOf(pre), e))
  {
    var c0 := CompileStart();
    CompilePending(l, pre);
    CompileRunLast(l, c0, pre, e);
    CompileRunConcat(l, c0, pre + [e], post);
    CompileSettlementStable(l, CompileRun(l, c0, pre + [e]), post);
  }

  /** A compile helper: collects the compiler's stderr and settles with the
      first of close, error and the 10 s timeout. */
  method Compile(l: Lang, events: seq<CompileEvent>) returns (outcome: Option<CompileOutcome>)
    ensures outcome == CompileRun(l, CompileStart(), events).settled
  {
    var compileStderr := "";
    var timerArmed, killed := true, false;
    outcome := None;
    var i := 0;
    while i < |events|
      invariant 0 <= i <= |events|
      invariant Compilation(compileStderr, timerArmed, killed, outcome) == CompileRun(l, CompileStart(), events[..i])
    {
      assert events[..i + 1] == events[..i] + [events[i]];
      CompileRunLast(l, CompileStart(), events[..i], events[i]);
      match events[i] {
        case CompilerStderr(chunk) =>
          compileStderr := compileStderr + chunk;
        case CompilerClosed(code) =>
          if outcome.None? {
            if code == Code(0) {
              outcome := Some(Compiled);
            } else {
              outcome := Some(CompileFailed(ExecResult("", CompilerKind(l) + " compilation failed: " + compileStderr, Error)));
            }
          }
        case CompilerFailed(message) =>
          if outcome.None? {
            outcome := Some(CompileFailed(ExecResult("", CompilerKind(l) + " compilation error: " + message, Error)));
          }
        case CompileTimerElapsed =>
          if timerArmed {
            timerArmed := false;
            if !killed {
              killed := true;
              if outcome.None? {
                outcome := Some(CompileFailed(ExecResult("", CompilerKind(l) + " compilation timeout", Error)));
              }
            }
          }
      }
      i := i + 1;
    }
    assert events[..i] == events;
  }

  // --------------------------------------------------------------- runCode

  /** What the compile step resolves with: the helper's value for java, c and
      c++, success at once for the interpreted languages. */
  function CompileStage(l: Lang, compileEvents: seq<CompileEvent>): Option<CompileOutcome>
  {
    if IsCompiled(l) then CompileRun(l, CompileStart(), compileEvents).settled else Some(Compiled)
  }

  /** The value `runCode(language, code, input)` resolves with, None while
      pending. `writeError` is the message of a throwing `writeFileSync`;
      the compile helper sees `compileEvents`, the program `runEvents`. */
  function RunCodeValue(language: string, input: string, writeError: Option<string>,
                        compileEvents: seq<CompileEvent>, runEvents: seq<RunEvent>): Option<ExecResult>
  {
    if writeError.Some? then Some(ExecResult("", "Execution failed: " + writeError.value, Error))
    else
      var l := Dispatch(language);
      match CompileStage(l, compileEvents)
      case None => None
      case Some(CompileFailed(r)) => Some(r)
      case Some(Compiled) => PromiseValue(Run(Start(l, input), runEvents))
  }

  /** The scratch directory after `runCode`: the source written, the
      compiler's output added by a successful compile, and the artifacts
      removed after a failed compile or once the program ended. */
  function FilesAfterRun(language: string, writeError: Option<string>, compileEvents: seq<CompileEvent>,
                         runEvents: seq<RunEvent>, files: set<string>, undeletable: set<string>): set<string>
  {
    if writeError.Some? then files
    else
      var l := Dispatch(language);
      var name := Filename(language);
      var written := files + {name};
      match CompileStage(l, compileEvents)
      case None => written
      case Some(CompileFailed(_)) => AfterCleanup(written, undeletable, Artifacts(l, name))
      case Some(Compiled) =>
        var out := CompilerOutput(l, name);
        var built := if out.Some? then written + {out.value} else written;
        if EndCount(runEvents) > 0 then AfterCleanup(built, undeletable, Artifacts(l, name)) else built
  }

  /** `runCode`: write the source to the scratch directory, compile it where
      the language needs it, and run it; a failed compile is the result and
      skips the run. */
  method RunCode(language: string, input: string, writeError: Option<string>,
                 compileEvents: seq<CompileEvent>, runEvents: seq<RunEvent>, dir: ScratchDir)
    returns (outcome: Option<ExecResult>)
    modifies dir
    ensures outcome == RunCodeValue(language, input, writeError, compileEvents, runEvents)
    ensures dir.files == FilesAfterRun(language, writeError, compileEvents, runEvents, old(dir.files), dir.undeletable)
  {
    var filename := Filename(language);
    if writeError.Some? {
      return Some(ExecResult("", "Execution failed: " + writeError.value, Error));
    }
    dir.Write(filename);
    var l := Dispatch(language);
    FilenameMatchesDispatch(language);
    if IsCompiled(l) {
      var compiled := Compile(l, compileEvents);
      if compiled.None? {
        return None;
      }
      if compiled.value.CompileFailed? {
        var warned := dir.Cleanup(l, filename);
        return Some(compiled.value.result);
      }
      var out := CompilerOutput(l, filename);
      dir.Write(out.value);
    }
    var stdin;
    outcome, stdin := HandleProcess(l, filename, input, runEvents, dir);
  }

  // ---------------------------------------------------------------- lemmas

  /** A failed compile is the run's result, whatever the program would have
      done, and it leaves the directory cleaned. */
  lemma CompileFailureSkipsRun(language: string, input: string, compileEvents: seq<CompileEvent>,
                               runEvents: seq<RunEvent>, otherEvents: seq<RunEvent>)
    requires IsCompiled(Dispatch(language))
    requires CompileRun(Dispatch(language), CompileStart(), compileEvents).settled.Some?
    requires CompileRun(Dispatch(language), CompileStart(), compileEvents).settled.value.CompileFailed?
    ensures RunCodeValue(language, input, None, compileEvents, runEvents)
         == RunCodeValue(language, input, None, compileEvents, otherEvents)
         == Some(CompileRun(Dispatch(language), CompileStart(), compileEvents).settled.value.result)
    ensures RunCodeValue(language, input, None, compileEvents, runEvents).value.status == Error
  {
    var l := Dispatch(language);
    var c := CompileRun(l, CompileStart(), compileEvents).settled.value;
    CompileFailedIsError(l, compileEvents);
  }

  /** A reported compile failure has status error and no stdout. */
  predicate FailureIsError(settled: Option<CompileOutcome>)
  {
    settled.Some? && settled.value.CompileFailed? ==>
      settled.value.result.status == Error && settled.value.result.stdout == ""
  }

  lemma CompileStepFailureIsError(l: Lang, c: Compilation, e: CompileEvent)
    requires FailureIsError(c.settled)
    ensures FailureIsError(CompileStep(l, c, e).settled)
  {
    match e
    case CompilerStderr(chunk) =>
    case CompilerClosed(code) =>
    case CompilerFailed(message) =>
    case CompileTimerElapsed =>
  }

  /** Every failure a compile helper reports has status error and no stdout. */
  lemma {:induction false} CompileFailedIsError(l: Lang, es: seq<CompileEvent>)
    ensures FailureIsError(CompileRun(l, CompileStart(), es).settled)
    decreases |es|
  {
    if es != [] {
      CompileFailedIsError(l, es[..|es| - 1]);
      CompileStepFailureIsError(l, CompileRun(l, CompileStart(), es[..|es| - 1]), es[|es| - 1]);
    }
  }

  /** A language outside the five runs exactly as python does. */
  lemma UnknownLanguageRunsAsPython(language: string, input: string, writeError: Option<string>,
                                    compileEvents: seq<CompileEvent>, runEvents: seq<RunEvent>)
    requires !IsKnownName(ToLower(language))
    ensures RunCodeValue(language, input, writeError, compileEvents, runEvents)
         == RunCodeValue("python", input, writeError, compileEvents, runEvents)
  {
    UnknownLanguageIsPython(language);
    assert ToLower("python") == "python";
  }

  /** A failing write is reported at once, the message prefixed, and nothing is
      compiled or run. */
  lemma WriteFailureReported(language: string, input: string, message: string,
                             compileEvents: seq<CompileEvent>, runEvents: seq<RunEvent>)
    ensures RunCodeValue(language, input, Some(message), compileEvents, runEvents)
         == Some(ExecResult("", "Execution failed: " + message, Error))
  {
  }

  /** An interpreted language skips the compile step: its result is the
      handler's, whatever the compile callbacks. */
  lemma InterpretedRunsDirectly(language: string, input: string, compileEvents: seq<CompileEvent>, runEvents: seq<RunEvent>)
    requires !IsCompiled(Dispatch(language))
    ensures RunCodeValue(language, input, None, compileEvents, runEvents)
         == PromiseValue(Run(Start(Dispatch(language), input), runEvents))
  {
  }

  /** `runCode` reports `done` only when the program closed with exit 0:
      every error, timeout or non-zero exit is reported as an error. */
  lemma DoneMeansExitZero(language: string, input: string, compileEvents: seq<CompileEvent>, runEvents: seq<RunEvent>)
    ensures RunCodeValue(language, input, None, compileEvents, runEvents).Some?
         && RunCodeValue(language, input, None, compileEvents, runEvents).value.status == Done
      ==> Closed(Code(0)) in runEvents
  {
    var l := Dispatch(language);
    var c := CompileStage(l, compileEvents);
    if c == Some(Compiled) {
      DoneCameFromExitZero(l, input, runEvents);
    } else if IsCompiled(l) {
      CompileFailedIsError(l, compileEvents);
    }
  }

  /** Whether `cleanupFiles` ran: after a failed compile, or once the
      program closed or failed to spawn. */
  predicate CleanupRan(language: string, compileEvents: seq<CompileEvent>, runEvents: seq<RunEvent>)
  {
    var st := CompileStage(Dispatch(language), compileEvents);
    st.Some? && (st.value.CompileFailed? || EndCount(runEvents) > 0)
  }

  /** No artifact of a run is left behind once cleanup ran and none of
      them resists deletion: neither the source nor the compiler's output. */
  lemma NoArtifactLeft(language: string, compileEvents: seq<CompileEvent>, runEvents: seq<RunEvent>,
                       files: set<string>, undeletable: set<string>)
    ensures var arts := Artifacts(Dispatch(language), Filename(language));
      CleanupRan(language, compileEvents, runEvents) && (forall k :: 0 <= k < |arts| ==> arts[k] !in undeletable) ==>
      forall k :: 0 <= k < |arts| ==> arts[k] !in FilesAfterRun(language, None, compileEvents, runEvents, files, undeletable)
  {
    var l, name := Dispatch(language), Filename(language);
    var arts := Artifacts(l, name);
    var written := files + {name};
    var out := CompilerOutput(l, name);
    var built := if out.Some? then written + {out.value} else written;
    AfterCleanupSpec(written, undeletable, arts);
    AfterCleanupSpec(built, undeletable, arts);
  }

  /** A compiled program stopped only by the 15 s timer leaves its source
      and the compiler's output in the directory, because the timeout does
      not clean up. */
  lemma TimeoutLeavesArtifacts(language: string, compileEvents: seq<CompileEvent>, runEvents: seq<RunEvent>,
                               files: set<string>, undeletable: set<string>)
    ensures var arts := Artifacts(Dispatch(language), Filename(language));
      CompileStage(Dispatch(language), compileEvents) == Some(Compiled) && EndCount(runEvents) == 0 ==>
      forall k :: 0 <= k < |arts| ==> arts[k] in FilesAfterRun(language, None, compileEvents, runEvents, files, undeletable)
  {
    var l, name := Dispatch(language), Filename(language);
    var out := CompilerOutput(l, name);
    assert Artifacts(l, name) == [name] + (if out.Some? then [out.value] else []);
  }
}
