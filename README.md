# FutureCareer code execution and task generation, modelled in Dafny

FutureCareer is an interview-training platform. This project models the
core of two of its services and proves properties of that model.

* **The executor** (`executor/app/docker_executor.py`) takes a submission: a
  declared language, a set of files, a timeout and optionally test cases.
  - It decides the real language and the main file from the file names.
  - It builds the shell command for that language and runs it in one Docker
    container.
  - Without tests, it runs the program once and reports its streams.
  - With tests, it compiles once, runs every test through
    `echo <base64> | base64 -d | <runner>`, judges each test, and reports the
    verdict (`ACCEPTED` / `WRONG ANSWER`) with a per-test transcript.
  - It always removes the container and the temporary workspace.
* **The ML service** (`ml/app/services`) covers:
  - how the model's replies become a test suite of 18 tests, 3 open and 15
    hidden (`task_generator.py`);
  - how the canonical Python solution is run on each input with a replaced
    `input()` (`code_executor.py`);
  - how the next difficulty level is chosen (`adaptive_engine.py`);
  - how `generate_json` turns a chat reply into a JSON value
    (`llm_client.py`).

How each part is modelled:

* **Docker.** The Docker SDK and the file system of the executor become a
  `ContainerClient` object. It holds a script of replies, one per call, and a
  log of the calls made.
  - Every executor step is a method of `DockerExecutor` that changes that
    object.
  - Each method is proved equal to a specification function over the script
    (`ExecutionSpec`).
  - The properties of the executor are lemmas about those functions
    (`ExecutionProps`). For example: a request uses at most one container;
    the single run feeds the files in before it starts the container, the
    batch run starts it before it feeds them, and in both the container is
    removed last; the workspace is always removed; a
    timed-out test does not stop the batch; the verdict is `ACCEPTED`
    exactly when every test passed.
* **`exec`.** The interpreter behind `exec` is a parameter of `CodeExecutor`.
* **The chat API and `json.loads`.** Both are parameters of `LlmClient`.
* **Replies as input.** The task generator receives the already-decoded
  replies of the model as input.

Modules and files:

| module | file |
|---|---|
| `Wrappers` | `wrappers.dfy` |
| `PyText` | `py_text.dfy` |
| `JsonValue` | `json_value.dfy` |
| `Base64` | `base64.dfy` |
| `Languages` | `languages.dfy` |
| `Commands` | `commands.dfy` |
| `Runtime` | `runtime.dfy` |
| `Verdict` | `verdict.dfy` |
| `ExecutionSpec` | `execution_spec.dfy` |
| `Executor` | `executor.dfy` |
| `ExecutionProps` | `execution_props.dfy` |
| `CodeExecutor` | `code_executor.dfy` |
| `TaskGenerator` | `task_generator.dfy` |
| `LlmClient` | `llm_client.dfy` |
| `AdaptiveEngine` | `adaptive_engine.dfy` |

Where the code and its documentation disagree, the model follows the code:

* An exception raised while the batch container is created, started, fed with
  files or compiled is not caught by the batch. It leaves `execute_code`
  after the container is removed (`Failed(Raised(..))`), although the batch
  is described as never aborting. A test that times out, on the other hand,
  only yields a failed test.
* Both TypeScript commands start node on `main.replace('.ts', '.js')` as
  written (`JsFileAsWritten`), which renames an inner `.ts` as well (see
  Findings).
* An empty file set raises `IndexError` at the `list(files.keys())[0]` fallback
  (docker_executor.py:139). This happens before the language check, so an
  empty submission never reports an unsupported language.

## Model

| member | source | states |
|---|---|---|
| Languages.FromName | executor/app/docker_executor.py:18-36 | a name is read back as the language it names, and yields no language exactly when no `LANGUAGE_CONFIG` key is that name |
| Languages.SplitExtParts | executor/app/docker_executor.py:57 | `os.path.splitext`: root and extension concatenate to the path; the extension is empty or a dot followed by no dot and no slash |
| Languages.Root | executor/app/docker_executor.py:57 | the root followed by the extension is the path |
| Languages.Basename | executor/app/docker_executor.py:161 | the base name is the part of the path after its last slash: a suffix without a slash, preceded by a slash when shorter than the path |
| Languages.Ext | executor/app/docker_executor.py:57 | `os.path.splitext(p)[1]`; no contract of its own: its suffix shape is stated by `Root` and `SplitExtParts` |
| Languages.ExtensionFor | executor/app/docker_executor.py:125-131 | the fallback extension of a language, `.py` for an unknown one, is a dot followed by lower-case letters |
| Languages.LanguageOfExtension | executor/app/docker_executor.py:58-65 | the extension map (`.py`, `.ts` and `.js`, `.go`, `.java`); no contract of its own: it is stated by `FallbackExtensionKnown` and `TablesAgree` |
| Languages.DetectLanguageFromFile | executor/app/docker_executor.py:55-65 | `_detect_language_from_file`; no contract of its own: what it detects is stated by `DetectionByExtension`, `TablesAgree` and `HintsDetected` |
| Languages.FallbackExtensionKnown | executor/app/docker_executor.py:58-65 | every fallback extension is one the detector maps to a language |
| Languages.DetectionByExtension | executor/app/docker_executor.py:55-65 | detection depends only on the lower-cased extension of the path |
| Languages.TablesAgree | executor/app/docker_executor.py:125-131 | a file named by a plain stem plus a language's fallback extension is detected as that language |
| Languages.HintsDetected | executor/app/docker_executor.py:18-36 | the `main_file` of each configured language is detected as that language |
| Languages.FirstDetected | executor/app/docker_executor.py:112-117 | the index found is the first path whose extension gives a language; none found means no path has one |
| Languages.FirstEndingWith | executor/app/docker_executor.py:132-135 | the index found is the first path ending with the extension; none found means no path ends with it |
| Languages.Resolve | executor/app/docker_executor.py:107-139 | no language and main file exactly when there are no files; otherwise the main file is one of the paths |
| Languages.DetectionWins | executor/app/docker_executor.py:112-121 | the first detected file fixes both the language and the main file, whatever language was declared |
| Languages.DeclaredWhenUndetected | executor/app/docker_executor.py:119-121 | when no file is detected the declared language is kept |
| Languages.DetectFromFiles | executor/app/docker_executor.py:112-117 | the search loop finds the index `FirstDetected` names |
| Languages.FindByExtension | executor/app/docker_executor.py:132-135 | the fallback loop finds the index `FirstEndingWith` names |
| Languages.ResolveLanguageAndMain | executor/app/docker_executor.py:107-139 | the three-stage resolution computes `Resolve` |
| Languages.FallbackPicksDotfile | executor/app/docker_executor.py:123-135 | a file found only by the `endswith` fallback has nothing but dots in its basename before the extension |
| Languages.DotfileChosenByFallback | executor/app/docker_executor.py:112-139 | files `README` and `.py` declared as Python resolve to Python with main file `.py` |
| Languages.GoFileOverridesDeclaredPython | executor/app/docker_executor.py:112-121 | a `main.go` submission declared as Python runs as Go |
| Commands.JsFile | executor/app/docker_executor.py:155 | corrected half of the finding: a main path ending in `.ts` gets exactly that extension replaced by `.js`; the commands themselves use the as-written `JsFileAsWritten` |
| Commands.BuildStep | executor/app/docker_executor.py:273-297 | there is a build step for every language except Python |
| Commands.CompileCommand | executor/app/docker_executor.py:274-295 | the compile command runs the build step in `/workspace` under `sh -lc`; Python has none |
| Commands.CreateSpec | executor/app/docker_executor.py:184-195 | the container uses the language's image and the given command, has the network and the npm cache only for TypeScript, and gets half a CPU |
| Commands.JavaClassName | executor/app/docker_executor.py:161 | the class name has no slash and, followed by the base name's extension, is the base name of the main file |
| Commands.JsFileAsWritten | executor/app/docker_executor.py:155 | as-written half of the finding: a main path without `.ts` is unchanged (an inner `.ts` is renamed as well, see `JsFileAsWrittenRenamesInnerOccurrence`) |
| Commands.SingleRunCommand | executor/app/docker_executor.py:152-167 | the single-run command of each language; no contract of its own: its form is stated by `JavaSingleRunIsBuildThenRun`, `TypeScriptSingleRunIsBuildThenRun` and `InterpretedRunsMainInWorkspace` |
| Commands.RunnerCommand | executor/app/docker_executor.py:273-297 | the runner ends with what it runs: the Python script, the as-written `.js` file, the Java class or the Go binary `main_bin` |
| Commands.EncodedInput | executor/app/docker_executor.py:308 | decoding the encoded text gives back the input's UTF-8 bytes |
| Commands.TestCommand | executor/app/docker_executor.py:308-309 | the per-test shell line; no contract of its own: its form and what it pipes are stated by `TestInputRoundTrip` |
| Commands.JavaSingleRunIsBuildThenRun | executor/app/docker_executor.py:159-162 | the single Java run compiles the main file, then runs its class, in `/workspace` |
| Commands.TypeScriptSingleRunIsBuildThenRun | executor/app/docker_executor.py:152-158 | the single TypeScript run is, in `/workspace`, the batch build step (every `.ts` file compiled, the compiler's messages folded into the output) followed by the batch runner, `node` on the as-written `.js` name |
| Commands.InterpretedRunsMainInWorkspace | executor/app/docker_executor.py:165-167 | Python runs the main file, by absolute path once and by relative path in batch mode |
| Commands.GoRunnerRunsBuiltBinary | executor/app/docker_executor.py:289-295 | batch Go builds the main file into `main_bin` and the tests run `./main_bin` |
| Commands.JavaClassOfPath | executor/app/docker_executor.py:161 | the Java class is the main file's basename without `.java` |
| Commands.JsFilesAgreeWithoutInnerDot | executor/app/docker_executor.py:155 | without another dot in the stem, the code as written and the corrected one name the same `.js` file |
| Commands.JsFileAsWrittenRenamesInnerOccurrence | executor/app/docker_executor.py:280 | as written, a main file `a.ts` + `b.ts` with dot-free `a`, `b` (such as `a.tsb.ts`) becomes `a.js` + `b.js`, while tsc writes `a.ts` + `b.js`, so the two differ |
| Commands.TypeScriptRunnerMissesInnerTs | executor/app/docker_executor.py:280 | the batch runner of a main file `a.ts` + `b.ts` with dot-free `a`, `b` is `node a.js` + `b.js`, not the file tsc writes |
| Commands.TestInputRoundTrip | executor/app/docker_executor.py:308-309 | the test command pipes a base64 text that has no shell-special characters and decodes to the input's UTF-8 bytes |
| Commands.TimeoutMessageNamesSeconds | executor/app/docker_executor.py:313-315 | the timeout message is `Execution timeout after <n> seconds` |
| Base64.Encode | executor/app/docker_executor.py:308 | the encoding is padded to a multiple of 4 characters |
| Base64.DecodeEncode | executor/app/docker_executor.py:308-309 | `base64 -d` of `b64encode(b)` gives `b` back, for every byte string |
| Base64.EncodeIsShellSafe | executor/app/docker_executor.py:308-309 | every character of the encoding is in the base64 alphabet |
| Base64.Utf8 | executor/app/docker_executor.py:308 | UTF-8 takes between 1 and 4 bytes per character, and exactly one per character exactly when every character is ASCII |
| Base64.Utf8OfAscii | executor/app/docker_executor.py:308 | ASCII text is encoded as its own character codes, one byte each |
| Runtime.CallSpec | executor/app/docker_executor.py:186-219 | a client call consumes the next scripted reply and is logged as succeeding exactly when that reply raises nothing |
| Runtime.ContainerClient.Call | executor/app/docker_executor.py:186-219 | the object form of `CallSpec`: reply, remaining script and log updated accordingly |
| Runtime.ContainerClient.Record | executor/app/docker_executor.py:373-377 | an operation that cannot fail (`rmtree(ignore_errors=True)`) is logged as succeeding and consumes no reply |
| Verdict.Annotate | executor/app/docker_executor.py:321-327 | a blank error leaves the output; otherwise `Ошибка: <err>` is added on its own line, or stands alone after an empty output |
| Verdict.FirstError | executor/app/docker_executor.py:322-324 | an error already kept is never replaced; with none kept, a non-blank error is kept stripped and a blank one keeps nothing |
| Verdict.PassRule | executor/app/docker_executor.py:300-319 | a test passes exactly when it exits 0 and the stripped output equals the stripped expectation; the error stream never decides |
| Verdict.TimedOutTest | executor/app/docker_executor.py:312-327 | a timed-out test fails with exit code -1 and shows the timeout message |
| Verdict.JudgeIgnoresPadding | executor/app/docker_executor.py:318 | surrounding whitespace of output and error does not change the judgement |
| Verdict.Judge | executor/app/docker_executor.py:316-337 | the result entry of one test; no contract of its own: the pass rule, a timed-out test and padding are stated by `PassRule`, `TimedOutTest` and `JudgeIgnoresPadding` |
| Verdict.PassedCount | executor/app/docker_executor.py:339 | the passed count never exceeds the number of tests |
| Verdict.CountAllPassed | executor/app/docker_executor.py:339-341 | all passed exactly when the passed count is the number of tests |
| Verdict.TestLines | executor/app/docker_executor.py:345-349 | one transcript line per test, in order |
| Verdict.SummaryRules | executor/app/docker_executor.py:339-354 | `ACCEPTED` and exit code 0 exactly when all passed, otherwise `WRONG ANSWER`, exit code 1 and the first error on stderr |
| Verdict.Summarise | executor/app/docker_executor.py:339-354 | the summary fields; no contract of its own: they are stated by `SummaryRules` and `TranscriptLayout` |
| Verdict.VerdictOf | executor/app/docker_executor.py:342 | the verdict text; no contract of its own: `SummaryRules` states it is `ACCEPTED` exactly when all passed |
| Verdict.TranscriptLayout | executor/app/docker_executor.py:344-351 | the stdout is the verdict line, the count line, an empty line, then the test lines |
| Verdict.Transcript | executor/app/docker_executor.py:344-351 | `'\n'.join(stdout_lines)`; no contract of its own: its layout is stated by `TranscriptLayout` |
| ExecutionSpec.WriteFrom | executor/app/docker_executor.py:98-104 | the files are written in order; a failure stops the writing at the failing file |
| ExecutionSpec.Classify | executor/app/docker_executor.py:224-235 | a timeout gives exit -1 and its message; a container error keeps its streams and status; any other error gives exit -1 and `Docker error: ...` |
| ExecutionSpec.ShownStderr | executor/app/docker_executor.py:223 | stderr is shown only for a non-zero exit with non-blank error text |
| ExecutionSpec.Collect | executor/app/docker_executor.py:217-223 | the stdout log, the stderr log and a reload, in that order, each consuming one reply; the first call that raises stops it with that error; otherwise the result is the stdout log, the stderr log as `ShownStderr` shows it, and the reloaded exit code (0 when absent) |
| ExecutionSpec.AwaitExit | executor/app/docker_executor.py:211-215 | a failed wait stops the container and raises the timeout error |
| ExecutionSpec.SingleRunBody | executor/app/docker_executor.py:197-223 | the files are archived in, then the container is started, and nothing is executed inside it |
| ExecutionSpec.SingleRun | executor/app/docker_executor.py:182-241 | one container lifecycle: created with the run command, archived, started or removed, never exec'd into |
| ExecutionSpec.SingleRunOf | executor/app/docker_executor.py:182-241 | for any container spec: one lifecycle, archived then started or removed, never exec'd into, every failure classified |
| ExecutionSpec.ExecStep | executor/app/docker_executor.py:42-53 | one exec per call, with the given command and timeout |
| ExecutionSpec.TestStep | executor/app/docker_executor.py:308-315 | the test command is exec'd once and consumes one reply; the value is that reply's `TestOutcome`; a timeout becomes exit -1 with the timeout message, never an error |
| ExecutionSpec.ResultsExtend | executor/app/docker_executor.py:299-337 | judging the next test extends the results of the tests before it |
| ExecutionSpec.TestsFrom | executor/app/docker_executor.py:299-337 | only exec calls, one per remaining test when the loop finishes; then the results extend the earlier ones and belong to the tests in order, and an error already kept stays; a timeout never ends the loop |
| ExecutionSpec.TestsFromStep | executor/app/docker_executor.py:299-337 | one turn of the loop: a test that finishes is judged and appended, and the loop goes on from the script after its call with the first error updated |
| ExecutionSpec.Build | executor/app/docker_executor.py:273-297 | one compile exec, except for Python, which has none |
| ExecutionSpec.BuildAndTest | executor/app/docker_executor.py:273-354 | after the archive only exec calls are made |
| ExecutionSpec.BatchResult | executor/app/docker_executor.py:339-354 | the returned dict of a batch; no contract of its own: what it reports is stated by `BatchResultReports` |
| ExecutionSpec.BatchBody | executor/app/docker_executor.py:260-354 | start, then archive, then execs |
| ExecutionSpec.Batch | executor/app/docker_executor.py:246-360 | one container lifecycle, created with the keep-alive command and never waited on |
| ExecutionSpec.Dispatch | executor/app/docker_executor.py:139-363 | an empty file set fails with no files; a rejected request touches no container; any other trace is one lifecycle |
| ExecutionSpec.Execute | executor/app/docker_executor.py:88-95 | the workspace is made first |
| ExecutionSpec.InWorkspace | executor/app/docker_executor.py:95-372 | the body of the outer `try`; no contract of its own: that it never touches the workspace is stated by `InWorkspaceKeepsWorkspace` |
| ExecutionProps.LifecycleOnlyContainerOps | executor/app/docker_executor.py:182-241 | a lifecycle consists of container operations only |
| ExecutionProps.DispatchOps | executor/app/docker_executor.py:144-363 | after resolution, only container operations happen |
| ExecutionProps.InWorkspaceKeepsWorkspace | executor/app/docker_executor.py:95-372 | the body never makes or removes the workspace |
| ExecutionProps.WorkspaceAlwaysRemoved | executor/app/docker_executor.py:373-377 | once the workspace is made it is removed, exactly once and last, whatever happens |
| ExecutionProps.OneContainerLifecycle | executor/app/docker_executor.py:180-360 | every request uses at most one container: created first, and removed last exactly when created |
| ExecutionProps.LifecycleRemoval | executor/app/docker_executor.py:236-241 | a container is removed exactly when its creation succeeded, and only at the end |
| ExecutionProps.RejectedRequestsCreateNothing | executor/app/docker_executor.py:145-146 | a request without files or with an unsupported language creates no container |
| ExecutionProps.NoFilesRequest | executor/app/docker_executor.py:139 | an empty submission fails and only makes and removes the workspace |
| ExecutionProps.UnsupportedLanguageRejected | executor/app/docker_executor.py:145-146 | an unsupported resolved language fails with that language's name, before any container |
| ExecutionProps.SingleRunAlwaysReturns | executor/app/docker_executor.py:180-241 | a request without tests that reaches a container always returns, with no test results and no verdict |
| ExecutionProps.SingleResultShape | executor/app/docker_executor.py:361-372 | without tests, the reply carries no test results and no verdict |
| ExecutionProps.SingleRunTimeout | executor/app/docker_executor.py:209-227 | a failed wait gives empty stdout, the timeout message and exit -1, after stop and remove |
| ExecutionProps.TimeoutLifecycle | executor/app/docker_executor.py:209-241 | for any container spec, a failed wait gives empty stdout, the timeout message and exit -1, after stop and remove |
| ExecutionProps.SingleRunHidesStderrOnSuccess | executor/app/docker_executor.py:223 | a zero exit shows no stderr |
| ExecutionProps.SingleRunCompletes | executor/app/docker_executor.py:197-223 | when create, archive, start, wait and the three reads all succeed, the single run reports the stdout log, the reloaded exit code, and the stderr log exactly when that exit is non-zero and the log is not blank |
| ExecutionProps.CompletedLifecycle | executor/app/docker_executor.py:182-241 | for any container spec, a lifecycle whose calls all succeed returns what `Collect` reads after the wait |
| ExecutionProps.BodyCompletes | executor/app/docker_executor.py:197-223 | once archive, start and wait succeed, the single run's body returns what `Collect` reads next |
| ExecutionProps.WritesTakeOneReplyEach | executor/app/docker_executor.py:98-104 | each file write consumes exactly one reply |
| ExecutionProps.BatchResultReports | executor/app/docker_executor.py:318-354 | judging the tests on their replies gives a reply whose results are those judgements (passed exactly when exit 0 and the stripped outputs agree, the exit code kept, the output annotated with the error), whose stdout is the transcript, whose verdict and exit code follow whether all passed, and whose stderr is empty when all passed and otherwise the first non-blank error output, stripped |
| ExecutionProps.BuildAndTestReports | executor/app/docker_executor.py:273-354 | a compile step and test loop that return have every test finish on the replies that follow the build call (none for Python), and report exactly as `BatchResultReports` says on those replies |
| ExecutionProps.BatchReports | executor/app/docker_executor.py:245-354 | a batch that returns reads its tests' replies after create, start, archive and the build, and reports exactly as `BatchResultReports` says on them |
| ExecutionProps.BatchRequestReports | executor/app/docker_executor.py:243-372 | a request with tests that returns reads its tests' replies after the workspace, the file writes, create, start, archive and the build, and reports exactly as `BatchResultReports` says on them |
| ExecutionProps.TimedOutTestContinues | executor/app/docker_executor.py:310-337 | a timed-out test is recorded as failed with exit -1 and the loop goes on with the next test |
| ExecutionProps.FirstErrorOfIsFirstNonBlank | executor/app/docker_executor.py:322-324 | the kept error is empty exactly when every test's error output is blank, and otherwise the first non-blank one, stripped |
| ExecutionProps.TestsFromJudgesReplies | executor/app/docker_executor.py:299-337 | the loop finishes exactly when each remaining test's reply lets it finish; then each result is that test judged on its own reply, and the error is the one kept so far or else the first non-blank error output among those replies |
| ExecutionProps.JudgedAt | executor/app/docker_executor.py:318-337 | the k-th judged result is the k-th test, numbered k + 1, judged on the k-th reply |
| ExecutionProps.JudgedFacts | executor/app/docker_executor.py:318-337 | results judged on replies belong to their tests in order, pass exactly when the run exited 0 with the expected output up to padding, keep the exit code and show the stripped output with the error appended |
| ExecutionProps.BuildOutputIgnored | executor/app/docker_executor.py:273-297 | what the compile step prints or returns does not change the result |
| Executor.DockerExecutor.constructor | executor/app/docker_executor.py:38-40 | the executor is bound to its container client |
| Executor.DockerExecutor.WriteFiles | executor/app/docker_executor.py:98-104 | the write loop computes `WriteFrom` on the client |
| Executor.DockerExecutor.ExecInContainer | executor/app/docker_executor.py:42-53 | `_exec_in_container` computes `ExecStep` on the client |
| Executor.DockerExecutor.RunSingle | executor/app/docker_executor.py:182-241 | the single run computes `SingleRun`, with the removal in its `finally` |
| Executor.DockerExecutor.RunSingleBody | executor/app/docker_executor.py:197-223 | the body of the single run computes `SingleRunBody` |
| Executor.DockerExecutor.RunTest | executor/app/docker_executor.py:307-315 | one test exec computes `TestStep` |
| Executor.DockerExecutor.RunTests | executor/app/docker_executor.py:299-337 | the test loop computes `TestsFrom` from the first test |
| Executor.DockerExecutor.RunBatch | executor/app/docker_executor.py:246-360 | the batch computes `Batch`, with the removal in its `finally` |
| Executor.DockerExecutor.RunBatchBody | executor/app/docker_executor.py:260-354 | the batch body computes `BatchBody` |
| Executor.DockerExecutor.RunBuildAndTest | executor/app/docker_executor.py:273-354 | compile and tests compute `BuildAndTest` |
| Executor.DockerExecutor.RunBuild | executor/app/docker_executor.py:273-297 | the compile step computes `Build` |
| Executor.DockerExecutor.ExecuteCode | executor/app/docker_executor.py:67-377 | `execute_code` computes `Execute` on the client |
| Executor.DockerExecutor.InWorkspace | executor/app/docker_executor.py:95-372 | the body of the outer `try` computes `InWorkspace` |
| Executor.DockerExecutor.Dispatch | executor/app/docker_executor.py:144-363 | after resolution, the request runs as `Dispatch` |
| CodeExecutor.InputLines | ml/app/services/code_executor.py:34 | an empty input gives no lines and a non-empty one at least one; no line contains a newline |
| CodeExecutor.InputLinesJoin | ml/app/services/code_executor.py:34 | the lines joined with newlines are the input |
| CodeExecutor.FedLine | ml/app/services/code_executor.py:37-42 | the k-th `input()` gives the k-th line, then `''` forever |
| CodeExecutor.Drive | ml/app/services/code_executor.py:37-52 | `exec` of the program on a feeder; no contract of its own: the lines it serves are stated by `DriveFeedsLines` |
| CodeExecutor.RunOn | ml/app/services/code_executor.py:31-81 | one input's run and its result; no contract of its own: `ExecuteSpec` and `IsolatedInputs` state how the results use it |
| CodeExecutor.Fed | ml/app/services/code_executor.py:37-42 | the first n answers of `input()` are those lines in order |
| CodeExecutor.LineFeeder.constructor | ml/app/services/code_executor.py:34-35 | the feeder starts on the input's lines with nothing served |
| CodeExecutor.LineFeeder.Input | ml/app/services/code_executor.py:37-42 | each call serves the next answer and keeps the counter in step |
| CodeExecutor.ResultOf | ml/app/services/code_executor.py:51-81 | success exactly when `exec` returned and stdout was readable; the output is stripped stdout; the error is the traceback, or the capture's message |
| CodeExecutor.ExecuteSpec | ml/app/services/code_executor.py:10-83 | one result per input, in order, each the result of running that input alone |
| CodeExecutor.RunProgram | ml/app/services/code_executor.py:44-56 | one `exec` with a fresh feeder computes `Drive` |
| CodeExecutor.Execute | ml/app/services/code_executor.py:10-83 | the loop computes `ExecuteSpec` |
| CodeExecutor.ExecuteFailsIffARunFails | ml/app/services/code_executor.py:23-81 | `execute` raises exactly when an exception escapes the program on one of the inputs (both directions) |
| CodeExecutor.ExecuteCollects | ml/app/services/code_executor.py:23-83 | when every input has a result, `execute` returns exactly those results |
| CodeExecutor.DriveFeedsLines | ml/app/services/code_executor.py:37-52 | the program only ever sees the lines `custom_input` serves |
| CodeExecutor.IsolatedInputs | ml/app/services/code_executor.py:23-32 | the result for an input does not depend on the other inputs or on its position, for an interpreter that keeps no state between runs |
| CodeExecutor.ResultShape | ml/app/services/code_executor.py:68-81 | the results carry the inputs, in order |
| TaskGenerator.NormaliseLanguage | ml/app/services/task_generator.py:22-25 | the preferred language is always supported |
| TaskGenerator.NormaliseLanguageRules | ml/app/services/task_generator.py:22-25 | no language means Python; a supported name in any case is kept in lower case; any other name means Python |
| TaskGenerator.NormalisedIsLower | ml/app/services/task_generator.py:23 | the preferred language is non-empty lower-case text |
| TaskGenerator.NormaliseLanguageIdempotent | ml/app/services/task_generator.py:22-25 | normalising the result again changes nothing |
| TaskGenerator.NormaliseLanguageIgnoresCase | ml/app/services/task_generator.py:23 | the letter case of the given language does not matter |
| TaskGenerator.StoredSolution | ml/app/services/task_generator.py:45-62 | the stored solution is the preferred language's one when it exists, else the Python one, and absent when neither exists |
| TaskGenerator.SanitisedItem | ml/app/services/task_generator.py:164-168 | a string is kept stripped; a dict with an `input` key gives `str` of that value; anything else is dropped |
| TaskGenerator.Sanitised | ml/app/services/task_generator.py:162-175 | sanitising never adds items |
| TaskGenerator.SanitisedAppend | ml/app/services/task_generator.py:164-168 | items are sanitised one at a time and in order |
| TaskGenerator.SanitisedStrings | ml/app/services/task_generator.py:164-166 | a list of strings is kept whole, each string stripped |
| TaskGenerator.TestsWrapperHandledAlike | ml/app/services/task_generator.py:169-174 | a `{"tests": [...]}` reply is handled exactly like the bare list |
| TaskGenerator.SanitiseAll | ml/app/services/task_generator.py:164-168 | the sanitising loop computes `Sanitised` |
| TaskGenerator.HiddenTests | ml/app/services/task_generator.py:153-178 | a failed call gives `[]`; a list reply gives its sanitised items; a dict with `tests` gives its iterated items sanitised, or `[]` when they cannot be iterated; any other reply gives `[]` |
| TaskGenerator.GenerateHiddenTests | ml/app/services/task_generator.py:153-178 | `_generate_hidden_tests` computes `HiddenTests` |
| TaskGenerator.PaddedInputs | ml/app/services/task_generator.py:41-43 | there are always exactly 18 hidden inputs |
| TaskGenerator.PadInputs | ml/app/services/task_generator.py:41-43 | the doubling loop and the cut compute `PaddedInputs` |
| TaskGenerator.PaddedInputsShape | ml/app/services/task_generator.py:41-43 | the padded inputs start with the given ones, repeat them with their own period, and are all `"1\n1"` when none were given |
| TaskGenerator.CanonicalCases | ml/app/services/task_generator.py:71-74 | the canonical tests pair each result's input with its output |
| TaskGenerator.BlankCases | ml/app/services/task_generator.py:91-93 | one test per input with an empty output |
| TaskGenerator.ChooseCasesRules | ml/app/services/task_generator.py:64-93 | the canonical outputs are used when a solution ran successfully on every input; otherwise the model's outputs; otherwise empty outputs |
| TaskGenerator.ChooseCases | ml/app/services/task_generator.py:64-93 | the tests come from the canonical run, the model's outputs or empty outputs, and are never empty when there are inputs |
| TaskGenerator.ChosenCasesNonEmpty | ml/app/services/task_generator.py:82-93 | with inputs there is always at least one test, so the padding cannot divide by zero |
| TaskGenerator.PaddedCases | ml/app/services/task_generator.py:95-98 | the tests are padded or cut to exactly 18 |
| TaskGenerator.PadCases | ml/app/services/task_generator.py:95-98 | the padding loop, whose base is always the first test, computes `PaddedCases` |
| TaskGenerator.PairedOutput | ml/app/services/task_generator.py:246-253 | no item gives `""`; a string gives itself; a dict with `output` gives `str` of that value; any other item gives `""` |
| TaskGenerator.HiddenTestOutputs | ml/app/services/task_generator.py:232-261 | one test per input, carrying the inputs in order; for a list reply, or a dict whose `tests` is a list, the i-th output is the i-th item's paired output; for a failed call or any other shape every output is `""` |
| TaskGenerator.PairingByPosition | ml/app/services/task_generator.py:245-253 | for a bare list and for a `{"tests": [...]}` reply alike, the i-th input is paired with the i-th item, or `""` past the end of the list |
| TaskGenerator.PairOutputs | ml/app/services/task_generator.py:245-255 | the pairing loop pairs every input with its positional candidate |
| TaskGenerator.GenerateHiddenTestOutputs | ml/app/services/task_generator.py:219-261 | `_generate_hidden_test_outputs` computes `HiddenTestOutputs` |
| TaskGenerator.Inputs | ml/app/services/task_generator.py:105 | the hidden inputs are the tests' inputs in order |
| TaskGenerator.SplitSuiteShape | ml/app/services/task_generator.py:100-105 | of 18 tests, the first 3 are open and the other 15 hidden, in order, without loss or repetition |
| TaskGenerator.SplitSuite | ml/app/services/task_generator.py:100-105 | the examples followed by the hidden tests are the first 18 tests in order, the examples being the first 3 of them |
| TaskGenerator.ExtractCodeBlock | ml/app/services/task_generator.py:352-363 | the result is stripped, and is the stripped reply when there is no fence |
| TaskGenerator.DropTag | ml/app/services/task_generator.py:358-362 | at most the first line is dropped, and never the only one |
| TaskGenerator.FencedBlockExtracted | ml/app/services/task_generator.py:352-363 | a fenced block with a language tag gives exactly its stripped code |
| TaskGenerator.OneLineBlockKept | ml/app/services/task_generator.py:358-362 | a one-line block is kept even when it is a single word |
| TaskGenerator.UntaggedFirstLineKept | ml/app/services/task_generator.py:358-362 | a multi-line block whose first line is not alphabetic, or is 15 characters or longer, keeps that line: the result is the whole block, stripped |
| TaskGenerator.CanonicalSolution | ml/app/services/task_generator.py:328-341 | the solution is the code of the reply, or `""` when the call failed |
| TaskGenerator.GenerateTestSuite | ml/app/services/task_generator.py:38-105 | the shaping of the test suite in `generate_task` computes `TestSuite` |
| TaskGenerator.TestSuite | ml/app/services/task_generator.py:38-105 | no suite exactly when there is a canonical solution and its run on the padded inputs lets an exception escape |
| TaskGenerator.SuiteCoversPaddedInputs | ml/app/services/task_generator.py:38-105 | the suite's 3 examples and 15 hidden tests carry exactly the 18 padded inputs in order, whichever source gave the outputs |
| AdaptiveEngine.ParseLevel | ml/app/services/adaptive_engine.py:23-43 | only `easy`, `medium` and `hard` are levels |
| AdaptiveEngine.DetermineNextLevel | ml/app/services/adaptive_engine.py:7-51 | an unknown level is kept with `Уровень сохранён.`; a known level always moves to a known level with a specific reason |
| AdaptiveEngine.RankRule | ml/app/services/adaptive_engine.py:23-49 | passing goes one level up (staying at hard, and at medium after two or more bad attempts); failing goes one level down (staying at easy) |
| AdaptiveEngine.AtMostOneStep | ml/app/services/adaptive_engine.py:23-49 | the level moves at most one step; a pass never lowers it and a failure never raises it |
| AdaptiveEngine.BadAttemptsOnlyForMediumPass | ml/app/services/adaptive_engine.py:23-49 | bad attempts matter only when medium is passed |
| AdaptiveEngine.MediumPassThreshold | ml/app/services/adaptive_engine.py:24-30 | passing medium keeps medium from two bad attempts on, and moves to hard below that |
| LlmClient.BuildPayload | ml/app/services/llm_client.py:40-48 | the payload carries model, messages, temperature and token limit unchanged, and asks for a JSON object exactly in JSON mode |
| LlmClient.WithJsonInstruction | ml/app/services/llm_client.py:97-98 | only the last message's content can change; a last message without content is a `KeyError` |
| LlmClient.InstructionMentionsJson | ml/app/services/llm_client.py:98 | the appended instruction itself mentions JSON |
| LlmClient.WithJsonInstructionIdempotent | ml/app/services/llm_client.py:97-98 | afterwards the last message mentions JSON, so the instruction is added at most once |
| LlmClient.WithJsonInstructionAppends | ml/app/services/llm_client.py:97-98 | a last message that does not mention JSON gets exactly the instruction appended; one that does is left alone |
| LlmClient.AppendJsonInstruction | ml/app/services/llm_client.py:97-98 | the caller's list is changed in place as `WithJsonInstruction` says, and left unchanged on the `KeyError` |
| LlmClient.StripThinkAbsent | ml/app/services/llm_client.py:104-106 | a reply without `<think>` is unchanged |
| LlmClient.StripThinkSpan | ml/app/services/llm_client.py:106 | a `<think>…</think>` span is removed up to the first closing tag, and the scan goes on after it |
| LlmClient.StripThinkUnclosed | ml/app/services/llm_client.py:106 | an opening tag that is never closed is kept |
| LlmClient.StripThinkSinglePass | ml/app/services/llm_client.py:106 | one pass: removing a span can join a new span, which stays, so stripping twice differs from once |
| LlmClient.StripThink | ml/app/services/llm_client.py:104-106 | removing `<think>` spans never lengthens the reply |
| LlmClient.ExtractFence | ml/app/services/llm_client.py:109-112 | a reply without fences is unchanged |
| LlmClient.PlainFenceExtracted | ml/app/services/llm_client.py:111-112 | a plain fenced block gives its stripped body |
| LlmClient.JsonFenceExtracted | ml/app/services/llm_client.py:109-110 | a `json` fenced block gives its stripped body |
| LlmClient.CleanReply | ml/app/services/llm_client.py:102-112 | a reply with neither `<think>` nor a fence is parsed as it is |
| LlmClient.Unnest | ml/app/services/llm_client.py:118-124 | a dict with a string `content` that parses becomes that parse; a dict whose `content` does not parse, and anything that is not a dict with a string `content`, is kept; nothing else changes the value |
| LlmClient.JsonRequestAsksForJson | ml/app/services/llm_client.py:97-100 | the request asks for a JSON object with token limit 2048, and its last message mentions JSON |
| LlmClient.JsonRequest | ml/app/services/llm_client.py:97-100 | building the request fails, with a missing-content `KeyError`, exactly when the last message has no content |
| LlmClient.GenerateJsonOutcomes | ml/app/services/llm_client.py:81-130 | each outcome with its cause: a `KeyError` for missing content, the client's error, `ValueError` exactly when the cleaned reply does not parse, otherwise the unnested value |
| LlmClient.GenerateJsonResult | ml/app/services/llm_client.py:81-130 | a value is returned only when the request was built and the client replied |
| LlmClient.GenerateJson | ml/app/services/llm_client.py:81-130 | `generate_json` computes `GenerateJsonResult` and changes the caller's messages as the instruction step says |

## Left out

- Docker SDK I/O is a script of replies given to `ContainerClient`. This covers `docker.from_env`, the tar archive, byte decoding with `errors='replace'`, threads, `asyncio.wait_for` and wall-clock durations. `duration_ms` is not modelled because it depends on a clock.
- The contents of the tar archive are not modelled, only the `put_archive` call. Only top-level files are archived (`os.listdir` plus `isfile`). Files in sub-directories are written to the workspace but never reach the container.
- The main path is put into the shell command unquoted. The model keeps it verbatim and proves nothing about paths with spaces or quotes.
- A test that times out is not cancelled: the exec thread and the process in the container keep running. The model records only the timeout result.
- The single run classifies `docker.errors.ContainerError` as written: its stdout, stderr and exit status. The SDK never raises it from `create` or `start`.
- `_run_test` and `_prepare_runner`, after docker_executor.py:379, are never called from `execute_code` and are not part of this model.
- The `print` calls that log progress in every file, the HTTP exchange of `generate` (the httpx client, headers, status and error texts, the `choices[0].message.content` path), the prompts, the task-description call, `hint_service` and the construction of `Task` are not modelled. The chat reply and its error text are parameters.
- `json.loads` is the parameter `parse` and is not defined here. The model admits a dict with repeated keys, which `json.loads` never returns: `Get` reads the first of them, while Python keeps the last, and `Iterate` yields such a key once per field, while a Python dict has each key once.
- PyText.Lower: lower-cases ASCII letters only. It agrees with Python's `str.lower` on the language names and the word `json` compared here.
- PyText.IsAlpha: accepts ASCII letters only, while Python's `isalpha` also accepts other Unicode letters. A non-ASCII language tag is therefore kept as a code line.
- JsonValue.EscapeChar: escapes only the quote, the backslash, ASCII control characters and DEL. Python's `repr` also escapes every other character that `str.isprintable` rejects, such as U+00A0, U+00AD, U+200B and U+2028 (`str(['a\xa0b'])` is `['a\\xa0b']`). The model leaves those characters unescaped, so `Repr` and `PyStr` of a list or dict holding them differ from Python's. This reaches `SanitisedItem` (task_generator.py:168, 174) and `PairedOutput` (task_generator.py:248). No Unicode database is consulted.
- Base64.Utf8: a Dafny `char` cannot be a lone surrogate, while a Python `str` can hold one (`json.loads` returns one for `"\ud800"`). For such an input, `tc.input.encode('utf-8')` (docker_executor.py:308) raises `UnicodeEncodeError` and aborts the batch. The model cannot express that input, so it does not show that abort.
- PyText.IsSpace: follows `str.isspace`'s character set. No Unicode database is consulted.
- CodeExecutor.ExecuteSpec: a program that asks for more than `fuel` lines counts as escaping (`None`), although it could still finish. The fuel bound stands in for termination, which `exec` does not promise.
- CodeExecutor.IsolatedInputs: holds for the model's interpreter, a function of the code and the lines served. All runs of `execute` share `__builtins__` and the modules imported (code_executor.py:47-49), so a program that changes them can make one input's result depend on earlier inputs; that shared state is not modelled.
- CodeExecutor: `exec` itself, the `io.StringIO` stdin object (unused by the source) and the `passed_count` counter (never read) are not modelled.
- LlmClient.BuildPayload: the temperature is carried as a `real` and never computed with. Float rounding does not arise.
- TaskGenerator.PadCases: requires a non-empty list. The source divides by its length, which raises `ZeroDivisionError` on an empty list. `ChosenCasesNonEmpty` shows the caller never passes one.
- TaskGenerator.TestSuite: covers only the tests of a task. The language preference and the stored solutions are modelled separately by `NormaliseLanguage` and `StoredSolution`. The second solution call has no effect on the tests.

## Findings

| source | as written | input that shows it | evidently intended | confidence | as-written member | corrected member |
|---|---|---|---|---|---|---|
| executor/app/docker_executor.py:155 | `main_file_path.replace('.ts', '.js')` replaces every `.ts`, including ones inside the name (also at line 280) | main file `a.tsb.ts` (any dot-free stems around the inner `.ts`): node is started on `a.jsb.js`, but tsc writes `a.tsb.js` | replace only the final `.ts` extension | not executed | Commands.JsFileAsWritten, which `SingleRunCommand` and `RunnerCommand` use as the code does (shown by Commands.JsFileAsWrittenRenamesInnerOccurrence and Commands.TypeScriptRunnerMissesInnerTs) | Commands.JsFile, the extension swap (Commands.JsFilesAgreeWithoutInnerDot proves it names the same file as the code whenever the stem has no dot) |
