# Codeversa code-execution core, modelled in Dafny

Codeversa's backend runs user programs in two ways.

- **Process runner.** `services/JavaScriptRunner.js` writes the source into the scratch directory and compiles java, c and c++ sources. It then spawns the program and feeds it the user's input. Input goes out either when a prompt shows up on stdout or after a 1.5 s fallback. Three callbacks race to settle the result: close, spawn error and a 15 s timeout.
- **Container runner.** `services/dockerRunner.js` runs the source in a throw-away container with no network and a fixed memory limit. The source reaches the container base64-encoded, inside a shell pipeline.

Three services sit around the runners.

- **Job queue.** `services/EnhancedDockerRunner.js` queues submissions, drains them one at a time and moves each run record through queued → running → done/error.
- **Downloads.** `services/zipService.js` names the files of a project download.
- **AI replies.** `services/aiService.js` cleans up the AI model's replies: it extracts a JSON object or the first fenced code block.

The model follows the shape of each source file.

- **Lookups and string rules are functions.** This covers the language tables, the prompt test, the java noise filter, the result builders, the zip names and the reply clean-up. Their properties are lemmas.
- **Callback-driven code is a pure step function plus an imperative method.** This covers `handleProcess`, the compile helpers and the container run.
  - A run is the sequence of callbacks that fire. The step function says what one callback does to the closure's variables. Folding it over the sequence gives the state after a run.
  - The promise's value is the first settlement any callback records.
  - The imperative method keeps the closure's variables as locals, or as fields of a class (`ProcessHandler.ProcessHandle`). It handles the callbacks in a loop, and its contract ties what it returns to the fold.
- **The job queue is a class.** `JobQueue.Runner` has the queue, the `isProcessing` flag and the run table as fields. Its drain loop is proved against a pure specification of a sequential drain.

Time, processes, files and the network become inputs:

- the callbacks that fire, in their order;
- a set of file names for the scratch directory, with a set of names whose deletion throws;
- the container's callbacks and whether `container.stop()` succeeded;
- the code runner as a total function from `(language, code, input)` to a returned or thrown result;
- the clock's ISO timestamp.

Supporting modules model what the source relies on from JavaScript and Node:

- `JsString` models `trim`, `toLowerCase`, `includes`, `startsWith`, `endsWith`, `split` and `join`.
- `Utf8` models `Buffer.from(string)`, with a proved decoder.
- `Base64` models RFC 4648, section 4, with a proved decoder.

## Model

| member | source | states |
|---|---|---|
| ProcessRegistry.Filename | services/JavaScriptRunner.js:20-29 | `getFilename`: the file for the lower-cased language, `main.py` for anything unlisted. Its agreement with the dispatch is FilenameMatchesDispatch. |
| ProcessRegistry.Dispatch | services/JavaScriptRunner.js:40-53 | The `switch` on the lower-cased language, python for the default. Its properties are CaseInsensitive and UnknownLanguageIsPython. |
| ProcessRegistry.Artifacts | services/JavaScriptRunner.js:455-480 | The files `cleanupFiles` tries to delete, in order. Its relation to the compiler output is CompilerOutput. |
| ProcessRegistry.CompilerOutput | services/JavaScriptRunner.js:463-475 | The compiler's output file that the cleanup deletes after the source: `Main.class` for java, `<src>.exe` for c and c++, nothing otherwise. The artifacts are exactly the source followed by it. |
| ProcessRegistry.FilenameMatchesDispatch | services/JavaScriptRunner.js:20-53 | The file `runCode` writes is the file that the dispatched run path compiles or runs, for every language identifier. |
| ProcessRegistry.CaseInsensitive | services/JavaScriptRunner.js:20-40 | The file name and the dispatch depend only on the lower-cased language. |
| ProcessRegistry.UnknownLanguageIsPython | services/JavaScriptRunner.js:28-52 | An identifier outside the five runs as python from `main.py`. A listed identifier in any case gets its own path. |
| ProcessRegistry.AfterCleanup | services/JavaScriptRunner.js:455-480 | Deleting the artifacts in order, stopping at the first deletion that throws. Its properties are AfterCleanupSpec and AfterCleanupIdempotent. |
| ProcessRegistry.CleanupWarnsSpec | services/JavaScriptRunner.js:455-480 | The cleanup logs its warning exactly when some artifact was present and undeletable. |
| ProcessRegistry.AfterCleanupSpec | services/JavaScriptRunner.js:455-480 | Cleanup deletes nothing but the artifacts. With no failing deletion, it removes exactly the artifacts. |
| ProcessRegistry.AfterCleanupIdempotent | services/JavaScriptRunner.js:455-480 | A second cleanup with the same artifacts changes nothing. |
| ProcessRegistry.ScratchDir.Write | services/JavaScriptRunner.js:38 | Writing the source adds exactly its name to the directory. |
| ProcessRegistry.ScratchDir.Cleanup | services/JavaScriptRunner.js:455-480 | The directory becomes the cleanup of its old contents over the run path's artifacts: the source, `<src>.exe` for c/cpp and `Main.class` for java. A throwing delete stops the rest and never escapes. The warning is logged exactly when some artifact was present and undeletable. |
| ProcessResults.IsPrompt | services/JavaScriptRunner.js:356-359 | The prompt test on one stdout chunk. Its properties are PromptSignals and NoPromptWithoutSignalLetters. |
| ProcessResults.CleanJavaOutput | services/JavaScriptRunner.js:443-453 | `cleanJavaOutput`: split on newlines, drop the noise lines, join and trim. Its properties are CleanJavaOutputSpec and FilterJavaLines. |
| ProcessResults.CloseResult | services/JavaScriptRunner.js:395-418 | The value the close listener resolves with. Its properties are CloseResultSpec. |
| ProcessResults.ErrorResult | services/JavaScriptRunner.js:420-428 | The value the error listener resolves with. Its properties are ErrorAndTimeoutSpec. |
| ProcessResults.TimeoutResult | services/JavaScriptRunner.js:431-440 | The value the 15 s timer resolves with. Its properties are ErrorAndTimeoutSpec. |
| ProcessResults.PromptSignals | services/JavaScriptRunner.js:356-359 | A chunk counted as a prompt holds `:`, `>`, `?`, or, lower-cased, `input` or `enter`. Conversely, `:`, `>`, `?` or a lower-cased `input` always makes it a prompt. |
| ProcessResults.NoPromptWithoutSignalLetters | services/JavaScriptRunner.js:356-359 | A chunk with no `t`, `T`, `:`, `>` or `?` is never a prompt. |
| ProcessResults.ResultLineIsPrompt | services/JavaScriptRunner.js:356-359 | The output `Result: 42` is taken for a prompt, because of its colon. |
| ProcessResults.PlainRequestIsNoPrompt | services/JavaScriptRunner.js:356-359 | `Give a number` is not a prompt. |
| ProcessResults.FilterJavaLines | services/JavaScriptRunner.js:446-450 | Every kept line passes the java noise test, and every passing line is kept. |
| ProcessResults.FilterJavaLinesConcat | services/JavaScriptRunner.js:446-450 | Filtering a concatenation is filtering each part, in order, so the kept lines keep their original order. |
| ProcessResults.FilterKeepsPassingLines | services/JavaScriptRunner.js:446-450 | When every line passes, the filter keeps the lines as they are. |
| ProcessResults.CleanJavaOutputSpec | services/JavaScriptRunner.js:443-453 | `cleanJavaOutput` returns trimmed text without `JAVA_TOOL_OPTIONS`. Text with no noise line comes back just trimmed, so the empty text gives `''`. |
| ProcessResults.CloseResultSpec | services/JavaScriptRunner.js:395-418 | The close result is `done` exactly on exit code 0, and then its stderr is trimmed too. stdout is always trimmed. An error result's stderr is the trimmed stderr, noise-filtered for java, or `<language> execution failed with code <N>` when that is empty. Java noise never reaches stdout. |
| ProcessResults.ErrorAndTimeoutSpec | services/JavaScriptRunner.js:420-440 | Spawn-error and timeout results have status `error` and trimmed stdout. The spawn error names the language and ends with the error message. The timeout message names the language. |
| ProcessResults.CompileOutcomeSpec | services/JavaScriptRunner.js:126-155 | A compiler close gives `done` exactly on code 0; otherwise an error with empty stdout and the collected diagnostics at the end of stderr. The compiler error and compile timeout are errors, and the compiler error ends with its message. |
| ProcessHandler.Step | services/JavaScriptRunner.js:332-441 | What one callback of `handleProcess` does to the closure's variables. The Step lemmas below state its properties. |
| ProcessHandler.Run | services/JavaScriptRunner.js:332-441 | The closure's variables after a run, one step per callback in order. The lemmas from StreamsAccumulate on state its properties. |
| ProcessHandler.StepStdout | services/JavaScriptRunner.js:350-352 | Only a stdout chunk changes stdout, and it is appended. |
| ProcessHandler.StepStderr | services/JavaScriptRunner.js:372-385 | A stderr chunk is appended unless the language is java and the chunk mentions `JAVA_TOOL_OPTIONS` or `Picked up`. Nothing else changes stderr. |
| ProcessHandler.StepPrompt | services/JavaScriptRunner.js:361-369 | `hasPrompt` is set exactly when it was set already or a prompt chunk arrives. The prompt timer bookkeeping is preserved. |
| ProcessHandler.StepStdinWithInput | services/JavaScriptRunner.js:338-348 | With input, each callback keeps stdin either untouched or exactly one write of `input + "\n"` then end of input, matching `inputSent`. |
| ProcessHandler.StepStdinNoInput | services/JavaScriptRunner.js:338-348 | Without input, stdin only ever receives end of input, at most once per timer that can call `sendInput`. |
| ProcessHandler.StepDelivery | services/JavaScriptRunner.js:388-393 | `inputSent` never resets. While no close or error has cleared the fallback, the input is sent or the fallback still pending. When the fallback fires, the input is sent. |
| ProcessHandler.StepSettlement | services/JavaScriptRunner.js:395-440 | A settled promise stays settled. Only close, spawn error or the live overall timer settle it, each with the streams collected so far. |
| ProcessHandler.StepSettlesFromClose | services/JavaScriptRunner.js:395-418 | A close settlement carries the exit code of the callback that made it. |
| ProcessHandler.StepCleanups | services/JavaScriptRunner.js:395-428 | Cleanup runs once per close or spawn error and at no other callback. |
| ProcessHandler.StepOverallTimer | services/JavaScriptRunner.js:431-440 | The 15 s timer fires once, and it kills the child exactly then. |
| ProcessHandler.StreamsAccumulate | services/JavaScriptRunner.js:350-385 | After any run, stdout is every stdout chunk in order. stderr is every stderr chunk the java filter keeps, in order. |
| ProcessHandler.PromptArmedOnce | services/JavaScriptRunner.js:361-369 | The prompt-delay timer is armed at most once per run, and exactly when some stdout chunk was a prompt. |
| ProcessHandler.StdinIsDisciplined | services/JavaScriptRunner.js:338-348 | With input, stdin receives either nothing or exactly `input + "\n"` followed by end of input. Without input, it never receives a write and at most two ends. |
| ProcessHandler.NoEndKeepsFallback | services/JavaScriptRunner.js:388-396 | Until a close or error, the 1.5 s fallback is pending or the input has gone out. |
| ProcessHandler.SentStays | services/JavaScriptRunner.js:338-348 | Once sent, the input stays sent for the rest of the run. |
| ProcessHandler.FallbackDelivers | services/JavaScriptRunner.js:388-393 | If the fallback fires before any close or error, the input is delivered, as exactly one write and an end. |
| ProcessHandler.SettlementStable | services/JavaScriptRunner.js:332-441 | Later callbacks never change a settled promise. |
| ProcessHandler.CountersFollowEvents | services/JavaScriptRunner.js:395-440 | The number of cleanups is the number of closes and errors. The overall timer is pending, and the child not killed, exactly when the 15 s timer has not fired. |
| ProcessHandler.PendingUntilResolving | services/JavaScriptRunner.js:332-441 | Without a close, an error or a timeout, the promise is still pending. |
| ProcessHandler.ClosedSettlementFromEvent | services/JavaScriptRunner.js:395-418 | A close settlement's code is the code of a close that happened. |
| ProcessHandler.DoneCameFromExitZero | services/JavaScriptRunner.js:405-410 | A `done` result implies that the program exited with code 0. |
| ProcessHandler.FirstResolutionWins | services/JavaScriptRunner.js:395-440 | The first close, error or timeout decides the result, built from the streams collected before it, whatever follows. |
| ProcessHandler.ProcessHandle.constructor | services/JavaScriptRunner.js:332-336 | Fresh closure state: empty streams, flags cleared, both timers armed. |
| ProcessHandler.ProcessHandle.SendInput | services/JavaScriptRunner.js:338-348 | `sendInput` updates the delivery as the pure delivery rule says and settles nothing. |
| ProcessHandler.ProcessHandle.OnStdoutData | services/JavaScriptRunner.js:350-370 | The stdout listener moves the state as the stdout step says. |
| ProcessHandler.ProcessHandle.OnStderrData | services/JavaScriptRunner.js:372-385 | The stderr listener moves the state as the stderr step says. |
| ProcessHandler.ProcessHandle.OnPromptDelayElapsed | services/JavaScriptRunner.js:366-368 | The 100 ms timer moves the state as the prompt-delay step says. |
| ProcessHandler.ProcessHandle.OnInputTimerElapsed | services/JavaScriptRunner.js:388-393 | The 1.5 s timer moves the state as the fallback step says. |
| ProcessHandler.ProcessHandle.CleanupFiles | services/JavaScriptRunner.js:455-480 | Counts one cleanup and leaves the scratch directory as the cleanup rule says. |
| ProcessHandler.ProcessHandle.OnClosed | services/JavaScriptRunner.js:395-418 | The close listener moves the state as the close step says and cleans up. |
| ProcessHandler.ProcessHandle.OnSpawnFailed | services/JavaScriptRunner.js:420-428 | The error listener moves the state as the error step says and cleans up. |
| ProcessHandler.ProcessHandle.OnOverallTimerElapsed | services/JavaScriptRunner.js:431-440 | The 15 s timer moves the state as the timeout step says. |
| ProcessHandler.ProcessHandle.Dispatch | services/JavaScriptRunner.js:332-441 | Running any callback equals one step of the pure model. |
| ProcessHandler.HandleProcess | services/JavaScriptRunner.js:332-441 | `handleProcess` over a run resolves with the value of the pure fold. It makes the fold's stdin calls. It leaves the directory cleaned if and only if a close or error came. |
| ProcessRunner.CompileStep | services/JavaScriptRunner.js:113-157 | What one callback of a compile helper does: collect diagnostics, or settle on close, error or the 10 s timeout. |
| ProcessRunner.CompileRun | services/JavaScriptRunner.js:113-157 | A compile helper's state after its callbacks, in order. Its properties are CompilePending, CompileSettlementStable and CompileFirstResolutionWins. |
| ProcessRunner.RunCodeValue | services/JavaScriptRunner.js:31-63 | The value `runCode` returns after the write, compile and run phases. Its properties are from CompileFailureSkipsRun on. |
| ProcessRunner.FilesAfterRun | services/JavaScriptRunner.js:31-157 | The scratch directory after `runCode`. Its properties are NoArtifactLeft and TimeoutLeavesArtifacts. |
| ProcessRunner.CompilePending | services/JavaScriptRunner.js:120-124 | Before the compiler's first close, error or timeout, only its diagnostics have been collected and the promise is pending. |
| ProcessRunner.CompileSettlementStable | services/JavaScriptRunner.js:113-157 | A settled compile result never changes. |
| ProcessRunner.CompileFirstResolutionWins | services/JavaScriptRunner.js:113-157 | The first compiler close, error or timeout decides the compile result, from the diagnostics collected before it. |
| ProcessRunner.Compile | services/JavaScriptRunner.js:113-157 | The compile helper's callbacks, run imperatively, settle as the pure compile fold says. |
| ProcessRunner.RunCode | services/JavaScriptRunner.js:31-63 | `runCode` returns the value that the write, compile and run phases determine. It leaves the scratch directory as those phases leave it: the source written, the compiler's output (`Main.class`, `<src>.exe`) added after a successful compile, and the cleanups applied. |
| ProcessRunner.CompileFailureSkipsRun | services/JavaScriptRunner.js:85-89 | A failed compile is the result of `runCode`, whatever the program would have done. It is an error. |
| ProcessRunner.CompileFailedIsError | services/JavaScriptRunner.js:126-155 | Every compile failure the helpers settle with has status `error`. |
| ProcessRunner.UnknownLanguageRunsAsPython | services/JavaScriptRunner.js:40-53 | An unlisted language behaves exactly as `python`, for every key that is not an inherited `Object` property such as `constructor` (see "JavaScript object-table quirks" below). |
| ProcessRunner.WriteFailureReported | services/JavaScriptRunner.js:55-62 | A failure to write the source gives an error with empty stdout and `Execution failed: <message>`. |
| ProcessRunner.InterpretedRunsDirectly | services/JavaScriptRunner.js:40-53 | python and javascript go straight to `handleProcess` without compiling. |
| ProcessRunner.DoneMeansExitZero | services/JavaScriptRunner.js:405-410 | A `done` from `runCode` implies that the program exited with code 0. |
| ProcessRunner.NoArtifactLeft | services/JavaScriptRunner.js:85-89 | Once a cleanup ran (a failed compile, or a close or error of the program) and no artifact was undeletable, none of the source, `Main.class` or `<src>.exe` is left. |
| ProcessRunner.TimeoutLeavesArtifacts | services/JavaScriptRunner.js:431-440 | A run that compiled and then ended only by the 15 s timeout leaves every artifact in the directory. |
| Utf8.Encode | services/dockerRunner.js:31 | The bytes of `Buffer.from(code)`. Its inverse is proved in DecodeEncode. |
| Utf8.DecodeEncodeChar | services/dockerRunner.js:31 | Decoding the UTF-8 bytes of a character gives back that character and its byte count. |
| Utf8.DecodeEncode | services/dockerRunner.js:31 | UTF-8 decoding undoes `Buffer.from(code)`. |
| Base64.Encode | services/dockerRunner.js:31 | `toString('base64')`. Its properties are EncodeIsPayload and DecodeEncode. |
| Base64.EncodeIsPayload | services/dockerRunner.js:31 | Base64 output is made of alphabet symbols and `=` padding only. |
| Base64.DecodeEncode | services/dockerRunner.js:31 | Base64 decoding (RFC 4648, section 4) undoes the encoding. |
| DockerRunner.Image | services/dockerRunner.js:19-28 | `getImageForLanguage`. Its properties are ImageLookup. |
| DockerRunner.Command | services/dockerRunner.js:30-42 | `getExecutionCommand`: the shell pipeline that decodes the payload into the language's file and runs it. Its properties are from PipelineFileIsRunnerFile to PipelineDeliversSource. |
| DockerRunner.Config | services/dockerRunner.js:53-68 | The options given to `createContainer`. Its properties are ConfigIsolates. |
| DockerRunner.TimeoutResult | services/dockerRunner.js:101-117 | The value the 10 s timer resolves with. Its properties are ResultShapes and TenSecondsNamed. |
| DockerRunner.CompletionResult | services/dockerRunner.js:119-136 | The value a resolved `wait()` leads to. Its properties are ResultShapes. |
| DockerRunner.DockerStep | services/dockerRunner.js:100-150 | What one callback of the container run does. Its properties are from DockerSettlementStable to SettlementFromWait. |
| DockerRunner.DockerRunValue | services/dockerRunner.js:44-156 | What `runCode` resolves or rejects with. Its properties are DockerRunValueSpec. |
| DockerRunner.ImageLookup | services/dockerRunner.js:19-28 | The image depends only on the lower-cased language. c and cpp share `gcc:latest`, and anything else gets `python:3.9-alpine`. |
| DockerRunner.PipelineFileIsRunnerFile | services/dockerRunner.js:34-38 | The file each pipeline writes is the file the process runner uses for that language. |
| DockerRunner.UnknownLanguageGetsPython | services/dockerRunner.js:41 | An unlisted language gets the python pipeline. |
| DockerRunner.PayloadIsInert | services/dockerRunner.js:31-38 | The payload holds no `"`, `\`, `$` or backquote, so it cannot end or expand inside the double-quoted `echo` argument. |
| DockerRunner.QuotedPipeline | services/dockerRunner.js:34-41 | The double-quoted argument of every pipeline is exactly the payload. |
| DockerRunner.PipelineDeliversSource | services/dockerRunner.js:30-42 | Decoding the quoted argument of the command, base64 and then UTF-8, gives back the source. |
| DockerRunner.ConfigIsolates | services/dockerRunner.js:53-68 | The container has no network, mode `none`, auto-removal, 256 MiB of memory and 512 MiB of swap (above the memory). It runs `sh -c` with the command, on the language's image. |
| DockerRunner.ResultShapes | services/dockerRunner.js:101-136 | A timeout reports -1, with stdout as collected and stderr extended by the note. A completion reports the container's status code with both streams trimmed. |
| DockerRunner.TenSecondsNamed | services/dockerRunner.js:107-113 | The timeout note names `10 seconds` exactly when the container was stopped. |
| DockerRunner.DockerSettlementStable | services/dockerRunner.js:100-137 | The container run's value never changes once settled. |
| DockerRunner.OnlyOutput | services/dockerRunner.js:139-150 | Stream data and stream errors change neither the timers nor the settlement. |
| DockerRunner.ExitBeforeTimerCompletes | services/dockerRunner.js:119-136 | An exit before the timer clears it. Once the 100 ms delay and the `container.remove()` it awaits have settled, the run completes with the exit code and the streams collected until then, whatever follows. |
| DockerRunner.TimerBeforeExitTimesOut | services/dockerRunner.js:101-117 | A timer before the exit settles as a timeout once `stop()` settles, with the streams collected until then, whatever follows. |
| DockerRunner.SettlementFromWait | services/dockerRunner.js:119-137 | A completion carries a status code that `wait()` resolved with. A rejection carries the message that `wait()` rejected with. |
| DockerRunner.DockerRunValueSpec | services/dockerRunner.js:44-156 | `runCode` throws the fixed message without Docker. A failing create, start, stdin attach or output attach is rethrown with the `Failed to execute code:` prefix. Otherwise an exit code other than -1 is one `wait()` returned, and a rejection is `wait()`'s own. |
| DockerRunner.RunInContainer | services/dockerRunner.js:44-157 | The imperative run settles as the pure container fold says. It writes `input + "\n"` to stdin exactly when the input is non-empty and the container was created and started and its stdin attached. That includes the case where the output attach then fails. |
| JobQueue.Finish | services/EnhancedDockerRunner.js:54-65 | The terminal `Run.update`. Its properties are FinishSpec and TerminalStatusSpec. |
| JobQueue.Execute | services/EnhancedDockerRunner.js:48-67 | `executeJob` on the run table. Its properties are ExecuteFrame. |
| JobQueue.Drain | services/EnhancedDockerRunner.js:40-43 | The drain loop on the run table, one job after the other. Its properties are from DrainFrame to SubmissionOrder. |
| JobQueue.QueuedRecord | services/EnhancedDockerRunner.js:13-18 | A new row is `queued`, has no output and keeps the user, language and input. |
| JobQueue.TerminalStatusSpec | services/EnhancedDockerRunner.js:55-65 | The terminal status is `done` exactly when the runner returned exit code 0. A timeout's -1 or a throw is `error`. It is never `queued` or `running`. |
| JobQueue.FinishSpec | services/EnhancedDockerRunner.js:54-65 | The terminal update sets the status. A returned result's stdout and stderr are copied unchanged. A throw leaves stdout alone and sets stderr to the message. No other field changes. |
| JobQueue.ExecuteFrame | services/EnhancedDockerRunner.js:48-67 | Executing a job touches only its own row and ends it at the terminal update of a `running` row. |
| JobQueue.DrainFrame | services/EnhancedDockerRunner.js:40-43 | A drain keeps the set of rows and leaves rows of jobs outside the queue unchanged. |
| JobQueue.DrainOutcome | services/EnhancedDockerRunner.js:40-67 | With distinct ids, every queued job's row ends at its own runner result, even after earlier jobs threw. |
| JobQueue.DrainWritesOrder | services/EnhancedDockerRunner.js:40-58 | The k-th job's row is written `running`, then its terminal status, as status writes 2k and 2k+1. |
| JobQueue.DrainConcat | services/EnhancedDockerRunner.js:40-43 | Draining two queues in a row equals draining their concatenation. |
| JobQueue.SubmissionOrder | services/EnhancedDockerRunner.js:40-43 | Two queued jobs run in submission order, each `running` before its terminal status. |
| JobQueue.Runner.constructor | services/EnhancedDockerRunner.js:5-9 | An empty queue, not processing. |
| JobQueue.Runner.ExecuteJob | services/EnhancedDockerRunner.js:48-67 | `executeJob` updates the table as the pure execution says and logs its two status writes. |
| JobQueue.Runner.ProcessQueue | services/EnhancedDockerRunner.js:33-46 | `processQueue` does nothing while processing or with an empty queue. Otherwise it drains the queue in FIFO order, as the pure drain says, and clears the flag. |
| JobQueue.Runner.QueueCodeExecution | services/EnhancedDockerRunner.js:11-31 | `queueCodeExecution` adds a fresh `queued` row and queues the job at the tail. It drains when no drain is under way, and returns the new row's id. |
| JobQueue.Runner.GetJobStatus | services/EnhancedDockerRunner.js:69-71 | `getJobStatus` returns the row, or nothing when there is none, and changes nothing. |
| ZipService.ProjectFiles | services/zipService.js:34-83 | The entries of `createProjectZip`. Its properties are ProjectFilesSpec and the lemmas after it. |
| ZipService.FileExtension | services/zipService.js:98-109 | `getFileExtension`. Its properties are FileExtensionIgnoresCase and ExtensionValues. |
| ZipService.CustomFilename | services/zipService.js:87-89 | The name `createCustomDownload` gives its one entry. Its properties are CustomFilenameSpec. |
| ZipService.DateOf | services/zipService.js:36 | The date holds no `T` and is the timestamp's prefix before its first `T`, or the whole timestamp when it has none. |
| ZipService.ProjectFilesSpec | services/zipService.js:34-83 | A project zip holds exactly two entries: the source, verbatim, under its name, then `README.txt` with the README text. |
| ZipService.ReadmeLines | services/zipService.js:43-79 | The README is three lines: `<Kind> Project`, `Created: <date>`, `Language: <language>`. |
| ZipService.ReadmeFieldsAreLines | services/zipService.js:36-81 | The kind and a date from a line-free timestamp hold no line break. |
| ZipService.ProjectNamesIgnoreCase | services/zipService.js:39-81 | A listed language's file name and the project kind ignore letter case. |
| ZipService.OtherLanguageIsCode | services/zipService.js:76-80 | An unlisted language is named `code.<language>` in its original spelling, as a `Code` project. |
| ZipService.ProjectSourceHasExtension | services/zipService.js:39-75 | Each listed layout's source name ends with the language's own extension from the extension table. |
| ZipService.SourceNameHasExtension | services/zipService.js:39-109 | A listed language's project source file ends with `.<getFileExtension(language)>`. |
| ZipService.FileExtensionIgnoresCase | services/zipService.js:98-109 | The extension ignores letter case and is `txt` for anything outside the seven. |
| ZipService.ExtensionValues | services/zipService.js:98-109 | Every extension is one of the table's seven or `txt`, none with a dot. |
| ZipService.CustomFilenameSpec | services/zipService.js:87-89 | The download name always ends with `.<ext>`. It is the custom name exactly when that already did. Applying the rule again changes nothing. |
| ZipService.CustomDownloadSpec | services/zipService.js:87-96 | A custom download is one entry holding the code verbatim, under a name starting with the custom name. |
| AiService.StripAll | services/aiService.js:151 | One global `replace` of a fence together with an optional white-space character after it. Its properties are StripAllFirst and NoFenceLeft. |
| AiService.StripAllFirst | services/aiService.js:151 | Stripping never lengthens the text, and the text left starts with the marker's first character only if the original did. No other member relies on it. |
| AiService.StripAllUnmarked | services/aiService.js:151 | Text that holds no copy of the marker comes through the pass unchanged. |
| AiService.NoFenceLeft | services/aiService.js:151 | After the global removal of triple backquotes, none remain. |
| AiService.UnfencedSpec | services/aiService.js:151-154 | The cleaned text is trimmed and holds no fence. |
| AiService.LastIndexOf | services/aiService.js:162-165 | The last occurrence: the character is there and nowhere after. |
| AiService.BracePairSpan | services/aiService.js:162-165 | `/\{[\s\S]*\}/` matches exactly when the first `{` comes before the last `}`. |
| AiService.PickIsBraced | services/aiService.js:157-165 | Every JSON answer starts with `{`, ends with `}` and is a substring of the cleaned text. |
| AiService.PickSpan | services/aiService.js:157-165 | A braced cleaned text is returned as it is. Otherwise the answer runs from the first `{` to the last `}`. |
| AiService.PickFallback | services/aiService.js:162-172 | The fallback is used exactly when no `{` precedes a `}`. It keeps the original reply, no key points and the fixed complexity text. |
| AiService.PickUnfenced | services/aiService.js:151-165 | An answer taken from fence-free text has no fence. |
| AiService.CleanJson | services/aiService.js:149-173 | `cleanJSONResponse`: both fence passes, `trim`, then the brace rules or the fallback. Its properties are CleanJsonBraced and CleanJsonFallback. |
| AiService.CleanJsonBraced | services/aiService.js:149-165 | `cleanJSONResponse`'s JSON answer is braced, fence-free and part of the cleaned reply. |
| AiService.CleanJsonFallback | services/aiService.js:149-173 | `cleanJSONResponse` falls back exactly when the cleaned reply has no brace pair, and then keeps the original reply. |
| AiService.WordRunEnd | services/aiService.js:177 | `(?:\w+)?` consumes the longest run of word characters. |
| AiService.ClosingFrom | services/aiService.js:177 | The lazy body ends at the first closing fence, and only when there is one. |
| AiService.FirstBlock | services/aiService.js:177-178 | The match is the leftmost opening fence that has a closing fence after it. |
| AiService.BlockShape | services/aiService.js:177 | A match is a fence, an optional word, a newline, a body without a fence, and a fence. |
| AiService.ExtractCode | services/aiService.js:176-185 | `extractCodeFromResponse`. Its properties are ExtractCodeSpec and the lemmas after it. |
| AiService.ExtractCodeSpec | services/aiService.js:176-185 | With a non-empty body, the result is the trimmed body. With an empty body or no block, the reply comes back unchanged. |
| AiService.FencedBodyIsFirstBlock | services/aiService.js:177-178 | A reply made of one fenced block with a language word matches at that block. |
| AiService.FencedBodyRoundTrip | services/aiService.js:176-185 | Extracting from a fenced, non-empty, backquote-free body gives the body, trimmed. |
| AiService.UnfencedReplyUnchanged | services/aiService.js:176-185 | A reply without fences comes back unchanged. |

## Left out

- **I/O and timers.** Spawning processes and compilers, `kill`, the file system and the real timers are not modelled. Each is an input: the sequence of callbacks, or a set of file names with the names whose deletion throws.
- **Run-time spawn exceptions.** A `spawn` of the program that throws synchronously throws inside the `new Promise` executors of services/JavaScriptRunner.js:66-73, 92-100, 174-181, 254-261 and 320-327. The `try` of `runJava`, `runC` or `runCpp` does not catch it, because the promise is returned without `await`. `runCode`'s `catch` turns it into `Execution failed: <message>`, and no cleanup runs. The model has no such case and treats a failed spawn as the program's `error` callback.
- **Compile-time spawn exceptions.** The `catch` blocks of `runJava`, `runC` and `runCpp` handle a `compileJava`/`compileC`/`compileCpp` call throwing synchronously. The model treats a spawn failure as the compiler's `error` callback.
- **A signal exit.** `handleProcess` reports it as code `null`; the model represents that as `Signalled`.
- **Java's reassignment on close.** The close handler reassigns stdout and stderr to their `cleanJavaOutput` forms; the model folds this into the close result. After this point only a resolve with no effect reads them.
- **Cleanup order.** The 15 s timeout resolves without cleaning up. Cleanup runs only in the close and error listeners, so the model does the same.
- **Logging.** The `console` logging is not modelled.
- **Letter case.** `toLowerCase` is lower-casing of ASCII letters only. Non-ASCII identifiers are never listed languages, so the lookups do not depend on this.
- **JavaScript object-table quirks.** A lookup such as `extensions["constructor"]` hits an inherited property. For `getFilename` with `constructor` or `__proto__`, in any case, the inherited value reaches `join`, which throws, so `runCode` returns `Execution failed: <message>`. The lookups in the model are plain if-chains, with the source's default for every unlisted key.
- **Characters.** Dafny characters are Unicode scalar values, so a string with lone surrogates (valid in JavaScript, replaced by `Buffer.from`) is not modelled.
- **Docker.** The daemon calls and the stream demultiplexing are not modelled. What reaches `stream.on('data')` and `stream.on('error')` is an input, as are the results of `wait()` and `stop()`. A failing `createContainer`, `start`, stdin `attach` or output `attach` is a `setupError`. A failing stdin attach only happens with non-empty input, since the stdin is attached only then.
- **Zip encoding.** The archiver zip and deflate encoding and the stream buffering of `createZip` are not modelled. A zip is its list of entries, and only `createProjectZip` and `createCustomDownload` are modelled.
- **The fallback object.** `JSON.stringify` of the fallback is not modelled. The fallback is kept as its three fields.
- **The AI model.** The Gemini calls, the prompt templates and `JSON.parse` in services/aiService.js are not modelled.
- **Queue concurrency.** The queue's asynchrony is not modelled. In particular, the un-awaited `processQueue()` and two submissions interleaving during a drain are out of scope. A drain runs to completion inside `queueCodeExecution` when none is under way.
- **Database failures.** A failing `Run.create` or `Run.update` is not modelled. The run table is a map and the row ids come from a counter.
- **The runner oracle.** The code runner is a total function of `(language, code, input)`. A job never hangs, and two runs of the same job give the same result.

## Where the source and its description differ

- **Docker rejections.** A rejected `container.wait()` rejects `runCode` with the bare message, without the `Failed to execute code:` prefix. The promise is returned from inside the `try`, so the `catch` never sees the rejection. `DockerRunner.DockerRunValue` follows the code.
