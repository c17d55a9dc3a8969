/** What the process-backed runner (services/JavaScriptRunner.js) decides
    from the text a program prints, and the result records it resolves with. */
module ProcessResults {
  import opened JsString
  import opened ProcessRegistry

  // ---------------------------------------------------------------- prompts

  /** The phrases of `this.inputPrompts`, matched against a lower-cased chunk. */
  const InputPrompts: seq<string> :=
    ["enter your name", "enter name", "input", "please enter", "enter value", "provide input", "enter data"]

  /** `prompts.some(prompt => text.includes(prompt))`. */
  predicate AnyPhrase(text: string, prompts: seq<string>)
  {
    exists k :: 0 <= k < |prompts| && Contains(text, prompts[k])
  }

  /** The prompt test of the stdout handler, applied to one chunk: a listed
      phrase in the lower-cased chunk, or `:`, `>`, `?` or `enter` in the chunk
      as written. */
  predicate IsPrompt(output: string)
  {
    || AnyPhrase(ToLower(output), InputPrompts)
    || Contains(output, ":") || Contains(output, ">")
    || Contains(output, "?") || Contains(output, "enter")
  }

  lemma WordAt(p: string, w: string, i: int)
    requires OccursAt(p, w, i)
    ensures Contains(p, w)
  {
  }

  /** Each listed phrase holds `input` or `enter`. */
  lemma PhraseKeyword(k: int)
    requires 0 <= k < |InputPrompts|
    ensures k == 2 || k == 5 ==> Contains(InputPrompts[k], "input")
    ensures k != 2 && k != 5 ==> Contains(InputPrompts[k], "enter")
  {
    var p := InputPrompts[k];
    if k == 2 {
      WordAt(p, "input", 0);
    } else if k == 5 {
      assert p[8..13] == "input";
      WordAt(p, "input", 8);
    } else if k == 3 {
      assert p[7..12] == "enter";
      WordAt(p, "enter", 7);
    } else {
      assert p[0..5] == "enter";
      WordAt(p, "enter", 0);
    }
  }

  /** A chunk showing none of `:`, `>`, `?`, and neither `input` nor `enter`
      in any letter case, is never taken for a prompt; each of the three
      punctuation marks and `input` in any case always is. */
  lemma PromptSignals(output: string)
    ensures IsPrompt(output) ==>
      ':' in output || '>' in output || '?' in output
      || Contains(ToLower(output), "input") || Contains(ToLower(output), "enter")
    ensures ':' in output || '>' in output || '?' in output || Contains(ToLower(output), "input")
      ==> IsPrompt(output)
  {
    var lower := ToLower(output);
    ContainsChar(output, ':');
    ContainsChar(output, '>');
    ContainsChar(output, '?');
    ContainsLowered(output, "enter");
    forall k | 0 <= k < |InputPrompts|
      ensures Contains(lower, InputPrompts[k]) ==> Contains(lower, "input") || Contains(lower, "enter")
    {
      var p := InputPrompts[k];
      PhraseKeyword(k);
      ContainsTrans(lower, p, "input");
      ContainsTrans(lower, p, "enter");
    }
    assert InputPrompts[2] == "input";
  }

  /** Every listed phrase, and `enter`, holds a `t`. */
  lemma PhrasesHoldT(k: int)
    requires 0 <= k < |InputPrompts|
    ensures 't' in InputPrompts[k]
  {
    var p := InputPrompts[k];
    if k == 2 || k == 5 {
      assert p[|p| - 1] == 't';
    } else if k == 3 {
      assert p[9] == 't';
    } else {
      assert p[2] == 't';
    }
  }

  /** Every signal of the prompt test involves a `t`, in either case, or one
      of the three punctuation marks; text without any of them is not a prompt. */
  lemma NoPromptWithoutSignalLetters(s: string)
    ensures 't' !in s && 'T' !in s && ':' !in s && '>' !in s && '?' !in s ==> !IsPrompt(s)
  {
    var lower := ToLower(s);
    if 't' !in s && 'T' !in s {
      assert 't' !in lower by {
        forall i | 0 <= i < |lower|
          ensures lower[i] != 't'
        {
          assert lower[i] == LowerChar(s[i]);
        }
      }
    }
    ContainsChar(s, ':');
    ContainsChar(s, '>');
    ContainsChar(s, '?');
    assert "enter"[2] == 't';
    ContainsChars(s, "enter");
    forall k | 0 <= k < |InputPrompts|
      ensures 't' !in lower ==> !Contains(lower, InputPrompts[k])
    {
      PhrasesHoldT(k);
      ContainsChars(lower, InputPrompts[k]);
    }
  }

  /** Any colon makes a chunk a prompt, as in a printed result. */
  lemma ResultLineIsPrompt(result: string)
    requires result == "Result: 42"
    ensures IsPrompt(result)
  {
    PromptSignals(result);
    assert result[6] == ':';
  }

  /** A request spelled without the listed words and marks is not one. */
  lemma PlainRequestIsNoPrompt(request: string)
    requires request == "Give a number"
    ensures !IsPrompt(request)
  {
    assert 't' !in request && 'T' !in request;
    NoPromptWithoutSignalLetters(request);
  }

  // ------------------------------------------------------- java diagnostics

  /** The line filter of `cleanJavaOutput`. */
  predicate KeepJavaLine(line: string)
  {
    && !Contains(line, "JAVA_TOOL_OPTIONS")
    && !Contains(line, "Picked up JAVA_TOOL_OPTIONS")
    && !StartsWith(Trim(line), "Picked up")
  }

  /** `lines.filter(KeepJavaLine)`: the kept lines are exactly the lines that
      pass the filter; they keep their order, as FilterJavaLinesConcat shows. */
  function FilterJavaLines(lines: seq<string>): (r: seq<string>)
    ensures |r| <= |lines|
    ensures forall x :: x in r <==> x in lines && KeepJavaLine(x)
  {
    if lines == [] then []
    else (if KeepJavaLine(lines[0]) then [lines[0]] else []) + FilterJavaLines(lines[1..])
  }
  /** Filtering a concatenation filters each part and keeps the parts in
      order, so no kept line moves ahead of one that came before it. */
  lemma {:induction false} FilterJavaLinesConcat(a: seq<string>, b: seq<string>)
    ensures FilterJavaLines(a + b) == FilterJavaLines(a) + FilterJavaLines(b)
    decreases |a|
  {
    if a == [] {
      assert a + b == b;
    } else {
      assert (a + b)[1..] == a[1..] + b;
      FilterJavaLinesConcat(a[1..], b);
    }
  }


  lemma {:induction false} FilterKeepsPassingLines(lines: seq<string>)
    requires forall k :: 0 <= k < |lines| ==> KeepJavaLine(lines[k])
    ensures FilterJavaLines(lines) == lines
  {
    if lines != [] {
      FilterKeepsPassingLines(lines[1..]);
    }
  }

  /** `cleanJavaOutput(output)`. */
  function CleanJavaOutput(output: string): string
  {
    if output == "" then ""
    else Trim(Join(FilterJavaLines(Split(output, '\n')), '\n'))
  }

  /** The cleaned text is trimmed and mentions `JAVA_TOOL_OPTIONS` nowhere;
      text all of whose lines pass the filter is only trimmed. */
  lemma CleanJavaOutputSpec(output: string)
    ensures IsTrimmed(CleanJavaOutput(output))
    ensures !Contains(CleanJavaOutput(output), "JAVA_TOOL_OPTIONS")
    ensures (forall k :: 0 <= k < |Split(output, '\n')| ==> KeepJavaLine(Split(output, '\n')[k]))
      ==> CleanJavaOutput(output) == Trim(output)
  {
    var t := "JAVA_TOOL_OPTIONS";
    if output == "" {
      assert !StartsWith("", t);
    } else {
      var kept := FilterJavaLines(Split(output, '\n'));
      var joined := Join(kept, '\n');
      TrimSpec(joined);
      var i, j :| 0 <= i <= j <= |joined| && Trim(joined) == joined[i..j];
      ContainsSlice(joined, i, j, t);
      forall k | 0 <= k < |kept|
        ensures !Contains(kept[k], t)
      {
        assert kept[k] in kept;
      }
      NoOccurrenceInJoin(kept, '\n', t);
      if kept == [] {
        assert !StartsWith(joined, t);
      }
      if forall k :: 0 <= k < |Split(output, '\n')| ==> KeepJavaLine(Split(output, '\n')[k]) {
        FilterKeepsPassingLines(Split(output, '\n'));
        JoinSplit(output, '\n');
      }
    }
  }

  /** The stderr-chunk filter of the java path: a chunk mentioning either
      marker is dropped whole. */
  predicate KeepJavaStderrChunk(chunk: string)
  {
    !Contains(chunk, "JAVA_TOOL_OPTIONS") && !Contains(chunk, "Picked up")
  }

  // ---------------------------------------------------------------- results

  datatype Status = Done | Error

  /** `{ stdout, stderr, status }`. */
  datatype ExecResult = ExecResult(stdout: string, stderr: string, status: Status)

  /** The `code` of a `close` event: a number, or `null` when a signal ended
      the process. */
  datatype ExitCode = Code(n: int) | Signalled

  function CodeText(code: ExitCode): string
  {
    match code
    case Code(n) => IntToString(n)
    case Signalled => "null"
  }

  /** The result of the `close` handler, from the accumulated streams. */
  function CloseResult(l: Lang, stdout: string, stderr: string, code: ExitCode): ExecResult
  {
    var out := if l == Java then CleanJavaOutput(stdout) else stdout;
    var err := if l == Java then CleanJavaOutput(stderr) else stderr;
    if code == Code(0) then ExecResult(Trim(out), Trim(err), Done)
    else
      var diagnostic := if Trim(err) != "" then Trim(err)
                        else Name(l) + " execution failed with code " + CodeText(code);
      ExecResult(Trim(out), diagnostic, Error)
  }

  /** The result of the child's `error` event. */
  function ErrorResult(l: Lang, stdout: string, message: string): ExecResult
  {
    ExecResult(Trim(stdout), Name(l) + " execution error: " + message, Error)
  }

  /** The result of the 15-second overall timer. */
  function TimeoutResult(l: Lang, stdout: string): ExecResult
  {
    ExecResult(Trim(stdout), "Execution timeout: " + Name(l) + " code took too long to run", Error)
  }

  /** Only exit code 0 reports success, with both streams trimmed; every
      failure carries a non-empty diagnostic: the program's own trimmed stderr
      when it wrote any, else the `execution failed with code` message; stdout
      is always trimmed, and on the java path free of JVM notices. */
  lemma CloseResultSpec(l: Lang, stdout: string, stderr: string, code: ExitCode)
    ensures CloseResult(l, stdout, stderr, code).status == Done <==> code == Code(0)
    ensures IsTrimmed(CloseResult(l, stdout, stderr, code).stdout)
    ensures CloseResult(l, stdout, stderr, code).status == Error ==> CloseResult(l, stdout, stderr, code).stderr != ""
    ensures code == Code(0) ==> IsTrimmed(CloseResult(l, stdout, stderr, code).stderr)
    ensures code != Code(0) && Trim(if l == Java then CleanJavaOutput(stderr) else stderr) != "" ==>
      CloseResult(l, stdout, stderr, code).stderr == Trim(if l == Java then CleanJavaOutput(stderr) else stderr)
    ensures code != Code(0) && Trim(if l == Java then CleanJavaOutput(stderr) else stderr) == "" ==>
      CloseResult(l, stdout, stderr, code).stderr == Name(l) + " execution failed with code " + CodeText(code)
    ensures l == Java ==> !Contains(CloseResult(l, stdout, stderr, code).stdout, "JAVA_TOOL_OPTIONS")
  {
    var out := if l == Java then CleanJavaOutput(stdout) else stdout;
    var err := if l == Java then CleanJavaOutput(stderr) else stderr;
    TrimSpec(out);
    TrimSpec(err);
    if l == Java {
      CleanJavaOutputSpec(stdout);
      TrimOfTrimmed(CleanJavaOutput(stdout));
    }
  }

  /** The error and timeout results report failure with trimmed stdout and
      a message naming the language tag. */
  lemma ErrorAndTimeoutSpec(l: Lang, stdout: string, message: string)
    ensures ErrorResult(l, stdout, message).status == Error && TimeoutResult(l, stdout).status == Error
    ensures IsTrimmed(ErrorResult(l, stdout, message).stdout) && IsTrimmed(TimeoutResult(l, stdout).stdout)
    ensures StartsWith(ErrorResult(l, stdout, message).stderr, Name(l))
    ensures EndsWith(ErrorResult(l, stdout, message).stderr, message)
    ensures Contains(TimeoutResult(l, stdout).stderr, Name(l))
  {
    TrimSpec(stdout);
    var e := ErrorResult(l, stdout, message).stderr;
    assert e[..|Name(l)|] == Name(l);
    assert e[|e| - |message|..] == message;
    var m := TimeoutResult(l, stdout).stderr;
    var pre := "Execution timeout: ";
    assert m[|pre|..|pre| + |Name(l)|] == Name(l);
    assert OccursAt(m, Name(l), |pre|);
  }

  // ------------------------------------------------------------ compilation

  /** The word the compile helpers (`compileJava`, `compileC`, `compileCpp`)
      put in front of their messages. */
  function CompilerKind(l: Lang): string
  {
    match l
    case Java => "Java"
    case C => "C"
    case Cpp => "C++"
    case _ => ""
  }

  /** The value a compile helper resolves with. */
  datatype CompileOutcome = Compiled | CompileFailed(result: ExecResult)

  function CompileCloseOutcome(l: Lang, compileStderr: string, code: ExitCode): CompileOutcome
  {
    if code == Code(0) then Compiled
    else CompileFailed(ExecResult("", CompilerKind(l) + " compilation failed: " + compileStderr, Error))
  }

  function CompileErrorOutcome(l: Lang, message: string): CompileOutcome
  {
    CompileFailed(ExecResult("", CompilerKind(l) + " compilation error: " + message, Error))
  }

  function CompileTimeoutOutcome(l: Lang): CompileOutcome
  {
    CompileFailed(ExecResult("", CompilerKind(l) + " compilation timeout", Error))
  }

  /** A compiler exit code 0 is the only success; a failure reports no stdout
      and ends with the compiler's whole stderr, untrimmed. */
  lemma CompileOutcomeSpec(l: Lang, compileStderr: string, code: ExitCode, message: string)
    ensures CompileCloseOutcome(l, compileStderr, code).Compiled? <==> code == Code(0)
    ensures code != Code(0) ==>
      var r := CompileCloseOutcome(l, compileStderr, code).result;
      r.status == Error && r.stdout == "" && EndsWith(r.stderr, compileStderr)
    ensures CompileErrorOutcome(l, message).result.status == Error
    ensures EndsWith(CompileErrorOutcome(l, message).result.stderr, message)
    ensures CompileTimeoutOutcome(l).result.status == Error
  {
    if code != Code(0) {
      var e := CompileCloseOutcome(l, compileStderr, code).result.stderr;
      assert e[|e| - |compileStderr|..] == compileStderr;
    }
    var m := CompileErrorOutcome(l, message).result.stderr;
    assert m[|m| - |message|..] == message;
  }
}
