/**
 * What one call of `DockerExecutor.execute_code`
 * (executor/app/docker_executor.py) does, as functions of the script of
 * runtime replies: the workspace, language resolution and validation, the
 * single-run mode with its classification of failures, and the batch mode
 * with its per-test loop. Each function returns the replies left, the calls
 * made, and the value computed.
 */
module ExecutionSpec {
  import opened Wrappers
  import opened PyText
  import opened Languages
  import opened Commands
  import opened Runtime
  import opened Verdict

  /** The arguments of `execute_code`; an empty test list stands for both `None` and `[]`. */
  datatype Request = Request(language: string, files: seq<(string, string)>, timeout: int, testCases: seq<TestCase>)

  /** The returned dict (without `duration_ms`). */
  datatype ExecResult = ExecResult(
    stdout: string,
    stderr: string,
    exitCode: int,
    testResults: Option<seq<TestResult>>,
    verdict: Option<string>)

  /** The exceptions that leave `execute_code`: the `IndexError` of an empty `files`, the `ValueError` of an unsupported language, or a runtime error. */
  datatype Failure = NoFiles | Unsupported(language: string) | Raised(error: Error)

  datatype Outcome = Returned(result: ExecResult) | Failed(failure: Failure)

  /** A stretch of a run: the replies left, the calls made, and what it computed. */
  datatype Run<T> = Run(script: seq<Reply>, trace: seq<Event>, value: T)

  /** `stdout`, `stderr` and `exit_code` as the single-run mode sets them. */
  datatype Streams = Streams(stdout: string, stderr: string, exitCode: int)

  /** The exit code and streams of one `exec_run`. */
  datatype ExecReply = ExecReply(exitCode: int, out: string, err: string)

  /** The `TypeError` of `int(None)`, raised when an `exec_run` reports no exit code. */
  const NoExitCode := "int() argument must be a string, a bytes-like object or a real number, not 'NoneType'"

  const DockerErrorPrefix := "Docker error: "

  function Keys(files: seq<(string, string)>): (paths: seq<string>)
    ensures |paths| == |files|
    ensures forall k :: 0 <= k < |files| ==> paths[k] == files[k].0
  {
    seq(|files|, k requires 0 <= k < |files| => files[k].0)
  }

  // ---------------------------------------------------------------- traces

  predicate NoContainerOps(t: seq<Event>)
  {
    forall k :: 0 <= k < |t| ==> !ContainerOp(t[k].op)
  }

  /** A container call other than creating or removing the container. */
  predicate MiddleOp(op: Op)
  {
    ContainerOp(op) && !op.Create? && !op.Remove?
  }

  /**
   * The life of one container: a creation that failed and nothing else, or a
   * creation that succeeded, calls on the container, and one forced removal
   * at the end.
   */
  predicate Lifecycle(t: seq<Event>)
  {
    && |t| >= 1 && t[0].op.Create?
    && (!t[0].ok ==> |t| == 1)
    && (t[0].ok ==> |t| >= 2 && t[|t| - 1].op == Remove && forall k :: 0 < k < |t| - 1 ==> MiddleOp(t[k].op))
  }

  /** A successful creation, calls on the container and a removal make a lifecycle, in that order. */
  lemma Enclosed(create: Event, body: seq<Event>, remove: Event)
    requires create.op.Create? && create.ok && remove.op == Remove
    requires forall k :: 0 <= k < |body| ==> MiddleOp(body[k].op)
    ensures var t := [create] + body + [remove];
      && Lifecycle(t) && t[0] == create && t[|t| - 1] == remove
      && forall k :: 0 <= k < |body| ==> t[k + 1] == body[k]
  {
  }

  // ------------------------------------------------------------- workspace

  /** Writing the submitted files from the `i`-th on; the first failing write ends the loop with its exception. */
  function WriteFrom(s: seq<Reply>, files: seq<(string, string)>, i: nat): (r: Run<Option<Error>>)
    requires i <= |files|
    ensures forall k :: 0 <= k < |r.trace| ==> r.trace[k].op.WriteFile?
    ensures r.value.None? ==> |r.trace| == |files| - i && forall k :: 0 <= k < |r.trace| ==> r.trace[k].ok
    ensures r.value.None? ==> forall k :: 0 <= k < |r.trace| ==> r.trace[k].op == WriteFile(files[i + k].0, files[i + k].1)
    ensures r.value.Some? ==> r.trace != [] && !r.trace[|r.trace| - 1].ok
    decreases |files| - i
  {
    if i == |files| then Run(s, [], None)
    else
      var c := CallSpec(s, WriteFile(files[i].0, files[i].1));
      if c.reply.raised.Some? then Run(c.rest, [c.event], c.reply.raised)
      else
        var rest := WriteFrom(c.rest, files, i + 1);
        Run(rest.script, [c.event] + rest.trace, rest.value)
  }

  // ------------------------------------------------------------ single run

  /**
   * The `except` clauses of the single-run mode: a timeout reports its
   * message with exit code -1; a container error reports its output, its
   * error output (or its message) and its exit status; anything else becomes
   * a `Docker error: ` with exit code -1.
   */
  function Classify(e: Error): (r: Streams)
    ensures e.TimeoutErr? ==> r == Streams("", e.msg, -1)
    ensures e.ContainerErr? ==> r.stdout == e.stdout && r.exitCode == e.exitStatus
    ensures e.ContainerErr? ==> r.stderr == (if e.stderr != [] then e.stderr else e.msg)
    ensures e.OtherErr? ==> r == Streams("", DockerErrorPrefix + e.msg, -1)
    ensures !e.ContainerErr? ==> r.exitCode == -1 && r.stdout == ""
  {
    match e
    case TimeoutErr(m) => Streams("", m, -1)
    case ContainerErr(out, err, status, m) => Streams(out, if err != [] then err else m, status)
    case OtherErr(m) => Streams("", DockerErrorPrefix + m, -1)
  }

  /** `stderr_raw if exit_code != 0 and stderr_raw.strip() else ''`. */
  function ShownStderr(exit: int, raw: string): (r: string)
    ensures r != [] ==> r == raw && exit != 0 && !IsBlank(raw)
    ensures exit != 0 && !IsBlank(raw) ==> r == raw
  {
    if exit != 0 && !IsBlank(raw) then raw else ""
  }

  /** `container.attrs['State']['ExitCode'] or 0`: a missing exit code counts as 0. */
  function ExitOrZero(reply: Reply): int
  {
    match reply.exitCode
    case Some(code) => code
    case None => 0
  }

  /**
   * After a completed wait: the standard output log, the error log, and the
   * reload, in that order, each only if the one before returned. The result
   * is the logged standard output, the exit code `ExitCode or 0`, and the
   * error log only when that code is non-zero and the log is not blank.
   */
  function Collect(s: seq<Reply>): (r: Run<Result<Streams, Error>>)
    ensures 1 <= |r.trace| <= 3 && r.trace[0].op == Logs(StdOut)
    ensures |r.trace| >= 2 ==> r.trace[1].op == Logs(StdErr)
    ensures |r.trace| == 3 ==> r.trace[2].op == Reload
    ensures forall k :: 0 <= k < |r.trace| ==> r.trace[k].op.Logs? || r.trace[k].op.Reload?
    ensures r.script == Drop(s, |r.trace|)
    ensures r.value.Ok? <==> NthReply(s, 0).raised.None? && NthReply(s, 1).raised.None? && NthReply(s, 2).raised.None?
    ensures r.value.Err? ==> NthReply(s, |r.trace| - 1).raised == Some(r.value.error)
    ensures r.value.Ok? ==> var exit := ExitOrZero(NthReply(s, 2));
      r.value.value == Streams(NthReply(s, 0).out, ShownStderr(exit, NthReply(s, 1).err), exit)
  {
    NextIsFirst(s);
    NextIsFirst(Drop(s, 1));
    NextIsFirst(Drop(s, 2));
    DropNth(s, 1, 0);
    DropNth(s, 2, 0);
    DropDrop(s, 1, 1);
    DropDrop(s, 2, 1);
    var out := CallSpec(s, Logs(StdOut));
    if out.reply.raised.Some? then Run(out.rest, [out.event], Err(out.reply.raised.value))
    else
      var err := CallSpec(out.rest, Logs(StdErr));
      if err.reply.raised.Some? then Run(err.rest, [out.event, err.event], Err(err.reply.raised.value))
      else
        var reload := CallSpec(err.rest, Reload);
        var t := [out.event, err.event, reload.event];
        if reload.reply.raised.Some? then Run(reload.rest, t, Err(reload.reply.raised.value))
        else
          var exit := ExitOrZero(reload.reply);
          Run(reload.rest, t, Ok(Streams(out.reply.out, ShownStderr(exit, err.reply.err), exit)))
  }

  /** The wait: when it raises, the container is stopped and a timeout reported (unless the stop itself raises). */
  function AwaitExit(s: seq<Reply>, timeout: int): (r: Run<Result<Streams, Error>>)
    ensures 1 <= |r.trace| && r.trace[0].op == Wait(timeout)
    ensures forall k :: 0 <= k < |r.trace| ==> r.trace[k].op.Wait? || r.trace[k].op.Stop? || r.trace[k].op.Logs? || r.trace[k].op.Reload?
    ensures !r.trace[0].ok ==> |r.trace| == 2 && r.trace[1].op == Stop
    ensures !r.trace[0].ok && r.trace[1].ok ==> r.value == Err(TimeoutErr(TimeoutMessage(timeout)))
  {
    var wait := CallSpec(s, Wait(timeout));
    if wait.reply.raised.Some? then
      var stop := CallSpec(wait.rest, Stop);
      Run(stop.rest, [wait.event, stop.event],
        if stop.reply.raised.Some? then Err(stop.reply.raised.value) else Err(TimeoutErr(TimeoutMessage(timeout))))
    else
      var c := Collect(wait.rest);
      Run(c.script, [wait.event] + c.trace, c.value)
  }

  /** The single-run calls after a successful `create`: populate, start, then wait and collect. */
  function SingleRunBody(s: seq<Reply>, timeout: int): (r: Run<Result<Streams, Error>>)
    ensures 1 <= |r.trace| && r.trace[0].op == PutArchive
    ensures |r.trace| >= 2 ==> r.trace[0].ok && r.trace[1].op == Start
    ensures forall k :: 0 <= k < |r.trace| ==> MiddleOp(r.trace[k].op) && !r.trace[k].op.Exec?
  {
    var put := CallSpec(s, PutArchive);
    if put.reply.raised.Some? then Run(put.rest, [put.event], Err(put.reply.raised.value))
    else
      var start := CallSpec(put.rest, Start);
      if start.reply.raised.Some? then Run(start.rest, [put.event, start.event], Err(start.reply.raised.value))
      else
        var w := AwaitExit(start.rest, timeout);
        Run(w.script, [put.event, start.event] + w.trace, w.value)
  }

  /** The single-run lifecycle of a container created from `spec`: every failure is classified, none propagates. */
  function SingleRunOf(s: seq<Reply>, spec: ContainerSpec, timeout: int): (r: Run<Streams>)
    ensures Lifecycle(r.trace)
    ensures r.trace[0].op == Create(spec)
    ensures |r.trace| >= 2 ==> r.trace[1].op == PutArchive
    ensures |r.trace| >= 3 ==> r.trace[2].op == Start || r.trace[2].op == Remove
    ensures forall k :: 0 <= k < |r.trace| ==> !r.trace[k].op.Exec?
  {
    var create := CallSpec(s, Create(spec));
    if create.reply.raised.Some? then Run(create.rest, [create.event], Classify(create.reply.raised.value))
    else
      var body := SingleRunBody(create.rest, timeout);
      var remove := CallSpec(body.script, Remove);
      Enclosed(create.event, body.trace, remove.event);
      Run(remove.rest, [create.event] + body.trace + [remove.event],
        match body.value
        case Ok(streams) => streams
        case Err(e) => Classify(e))
  }

  /** The single-run mode: one container running the language's command. */
  function SingleRun(s: seq<Reply>, l: Language, main: string, timeout: int): (r: Run<Streams>)
    ensures Lifecycle(r.trace)
    ensures r.trace[0].op == Create(CreateSpec(l, SingleRunCommand(l, main)))
    ensures |r.trace| >= 2 ==> r.trace[1].op == PutArchive
    ensures |r.trace| >= 3 ==> r.trace[2].op == Start || r.trace[2].op == Remove
    ensures forall k :: 0 <= k < |r.trace| ==> !r.trace[k].op.Exec?
  {
    SingleRunOf(s, CreateSpec(l, SingleRunCommand(l, main)), timeout)
  }

  // ----------------------------------------------------------------- batch

  /** `_exec_in_container`: one `exec_run`; it raises what the runtime raises, and `TypeError` when no exit code comes back. */
  function ExecStep(s: seq<Reply>, command: string, timeout: int): (r: Run<Result<ExecReply, Error>>)
    ensures |r.trace| == 1 && r.trace[0].op == Exec(command, timeout)
    ensures r.script == Drop(s, 1)
  {
    NextIsFirst(s);
    var c := CallSpec(s, Exec(command, timeout));
    Run(c.rest, [c.event],
      if c.reply.raised.Some? then Err(c.reply.raised.value)
      else if c.reply.exitCode.None? then Err(OtherErr(NoExitCode))
      else Ok(ExecReply(c.reply.exitCode.value, c.reply.out, c.reply.err)))
  }

  /** The first `n` results belong to the first `n` tests, in order, numbered from 1. */
  predicate ResultsMatch(results: seq<TestResult>, tests: seq<TestCase>, n: nat)
  {
    && n <= |tests| && |results| == n
    && forall k :: 0 <= k < n ==>
         && results[k].testIndex == k + 1
         && results[k].input == tests[k].input
         && results[k].expectedOutput == Strip(tests[k].output)
  }

  /**
   * What one test makes of the reply to its `exec_run`: the exit code and
   * streams; exit code -1, no output and the timeout message for a timeout;
   * the exception that ends the batch for anything else raised, or for a
   * missing exit code.
   */
  function TestOutcome(reply: Reply, timeout: int): Result<ExecReply, Error>
  {
    match reply.raised
    case Some(TimeoutErr(_)) => Ok(ExecReply(-1, "", TimeoutMessage(timeout)))
    case Some(e) => Err(e)
    case None =>
      match reply.exitCode
      case Some(code) => Ok(ExecReply(code, reply.out, reply.err))
      case None => Err(OtherErr(NoExitCode))
  }

  /** One test's `exec_run`, with a timeout turned into exit code -1, no output and the timeout message. */
  function TestStep(s: seq<Reply>, runner: string, tc: TestCase, timeout: int): (r: Run<Result<ExecReply, Error>>)
    ensures |r.trace| == 1 && r.trace[0].op == Exec(TestCommand(tc.input, runner), timeout)
    ensures r.script == Drop(s, 1) && r.value == TestOutcome(NthReply(s, 0), timeout)
    ensures r.value.Err? ==> !r.value.error.TimeoutErr?
    ensures ExecStep(s, TestCommand(tc.input, runner), timeout).value.Err?
      && ExecStep(s, TestCommand(tc.input, runner), timeout).value.error.TimeoutErr?
      ==> r.value == Ok(ExecReply(-1, "", TimeoutMessage(timeout)))
  {
    NextIsFirst(s);
    var ex := ExecStep(s, TestCommand(tc.input, runner), timeout);
    Run(ex.script, ex.trace,
      match ex.value
      case Ok(reply) => Ok(reply)
      case Err(TimeoutErr(_)) => Ok(ExecReply(-1, "", TimeoutMessage(timeout)))
      case Err(e) => Err(e))
  }

  lemma ResultsExtend(results: seq<TestResult>, tests: seq<TestCase>, i: nat, reply: ExecReply)
    requires ResultsMatch(results, tests, i) && i < |tests|
    ensures ResultsMatch(results + [Judge(i + 1, tests[i], reply.exitCode, reply.out, reply.err)], tests, i + 1)
  {
    var result := Judge(i + 1, tests[i], reply.exitCode, reply.out, reply.err);
    PassRule(i + 1, tests[i], reply.exitCode, reply.out, reply.err, reply.err);
    assert result.testIndex == i + 1;
    var extended := results + [result];
    assert forall k :: 0 <= k < i ==> extended[k] == results[k];
    assert extended[i] == result;
  }

  /**
   * The test loop from the `i`-th test on: each test's input is piped into
   * the runner; a timeout is recorded and the loop goes on; any other
   * exception ends the batch.
   */
  function TestsFrom(s: seq<Reply>, runner: string, tests: seq<TestCase>, i: nat, timeout: int,
                     results: seq<TestResult>, first: string): (r: Run<Result<(seq<TestResult>, string), Error>>)
    requires ResultsMatch(results, tests, i)
    ensures forall k :: 0 <= k < |r.trace| ==> r.trace[k].op.Exec?
    ensures r.value.Ok? ==> ResultsMatch(r.value.value.0, tests, |tests|) && r.value.value.0[..i] == results
    ensures r.value.Ok? && first != [] ==> r.value.value.1 == first
    ensures r.value.Err? ==> !r.value.error.TimeoutErr?
    ensures r.value.Ok? ==> |r.trace| == |tests| - i
    decreases |tests| - i
  {
    if i == |tests| then Run(s, [], Ok((results, first)))
    else
      var step := TestStep(s, runner, tests[i], timeout);
      if step.value.Err? then Run(step.script, step.trace, Err(step.value.error))
      else
        var reply := step.value.value;
        ResultsExtend(results, tests, i, reply);
        var extended := results + [Judge(i + 1, tests[i], reply.exitCode, reply.out, reply.err)];
        var rest := TestsFrom(step.script, runner, tests, i + 1, timeout, extended, FirstError(first, reply.err));
        assert extended[..i] == results;
        assert rest.value.Ok? ==> rest.value.value.0[..i] == extended[..i];
        Run(rest.script, step.trace + rest.trace, rest.value)
  }

  /** One turn of the test loop, for a test whose run did not end the batch. */
  lemma TestsFromStep(s: seq<Reply>, runner: string, tests: seq<TestCase>, i: nat, timeout: int,
                      results: seq<TestResult>, first: string, reply: ExecReply)
    requires ResultsMatch(results, tests, i) && i < |tests|
    requires TestStep(s, runner, tests[i], timeout).value == Ok(reply)
    ensures ResultsMatch(results + [Judge(i + 1, tests[i], reply.exitCode, reply.out, reply.err)], tests, i + 1)
    ensures var step := TestStep(s, runner, tests[i], timeout);
      var rest := TestsFrom(step.script, runner, tests, i + 1, timeout,
        results + [Judge(i + 1, tests[i], reply.exitCode, reply.out, reply.err)], FirstError(first, reply.err));
      TestsFrom(s, runner, tests, i, timeout, results, first) == Run(rest.script, step.trace + rest.trace, rest.value)
  {
    ResultsExtend(results, tests, i, reply);
  }

  /** The returned dict of a batch that ran all its tests. */
  function BatchResult(results: seq<TestResult>, first: string): ExecResult
  {
    var summary := Summarise(results, first);
    ExecResult(summary.stdout, summary.stderr, summary.exitCode, Some(results), Some(summary.verdict))
  }

  /** The build step: one `exec_run` for a compiled language, nothing for Python. */
  function Build(s: seq<Reply>, l: Language, main: string, timeout: int): (r: Run<Result<ExecReply, Error>>)
    ensures |r.trace| == (if l == Python then 0 else 1)
    ensures r.script == Drop(s, |r.trace|)
    ensures forall k :: 0 <= k < |r.trace| ==> r.trace[k].op == Exec(CompileCommand(l, main).value, timeout)
  {
    match CompileCommand(l, main)
    case None => Run(s, [], Ok(ExecReply(0, "", "")))
    case Some(cmd) => ExecStep(s, cmd, timeout)
  }

  /** Build once, then run every test; the build's exit code and output are not looked at. */
  function BuildAndTest(s: seq<Reply>, l: Language, main: string, tests: seq<TestCase>, timeout: int): (r: Run<Result<ExecResult, Error>>)
    ensures forall k :: 0 <= k < |r.trace| ==> r.trace[k].op.Exec?
  {
    var build := Build(s, l, main, timeout);
    if build.value.Err? then Run(build.script, build.trace, Err(build.value.error))
    else
      var run := TestsFrom(build.script, RunnerCommand(l, main), tests, 0, timeout, [], "");
      Run(run.script, build.trace + run.trace,
        match run.value
        case Ok(done) => Ok(BatchResult(done.0, done.1))
        case Err(e) => Err(e))
  }

  /** The batch calls after a successful `create`: start, populate, then build and test. */
  function BatchBody(s: seq<Reply>, l: Language, main: string, tests: seq<TestCase>, timeout: int): (r: Run<Result<ExecResult, Error>>)
    ensures 1 <= |r.trace| && r.trace[0].op == Start
    ensures |r.trace| >= 2 ==> r.trace[0].ok && r.trace[1].op == PutArchive
    ensures forall k :: 0 <= k < |r.trace| ==> MiddleOp(r.trace[k].op) && !r.trace[k].op.Wait?
  {
    var start := CallSpec(s, Start);
    if start.reply.raised.Some? then Run(start.rest, [start.event], Err(start.reply.raised.value))
    else
      var put := CallSpec(start.rest, PutArchive);
      if put.reply.raised.Some? then Run(put.rest, [start.event, put.event], Err(put.reply.raised.value))
      else
        var rest := BuildAndTest(put.rest, l, main, tests, timeout);
        Run(rest.script, [start.event, put.event] + rest.trace, rest.value)
  }

  /** The batch mode: one idle container for all tests; exceptions propagate once it is removed. */
  function Batch(s: seq<Reply>, l: Language, main: string, tests: seq<TestCase>, timeout: int): (r: Run<Result<ExecResult, Error>>)
    ensures Lifecycle(r.trace)
    ensures r.trace[0].op == Create(CreateSpec(l, KeepAlive))
    ensures |r.trace| >= 2 ==> r.trace[1].op == Start
    ensures |r.trace| >= 3 ==> r.trace[2].op == PutArchive || r.trace[2].op == Remove
    ensures forall k :: 0 <= k < |r.trace| ==> !r.trace[k].op.Wait?
  {
    var create := CallSpec(s, Create(CreateSpec(l, KeepAlive)));
    if create.reply.raised.Some? then Run(create.rest, [create.event], Err(create.reply.raised.value))
    else
      var body := BatchBody(create.rest, l, main, tests, timeout);
      var remove := CallSpec(body.script, Remove);
      Enclosed(create.event, body.trace, remove.event);
      Run(remove.rest, [create.event] + body.trace + [remove.event], body.value)
  }

  // --------------------------------------------------------- whole request

  /** Everything between writing the files and the workspace cleanup: resolution, validation, and one of the two modes. */
  function Dispatch(s: seq<Reply>, q: Request): (r: Run<Outcome>)
    ensures r.trace == [] || Lifecycle(r.trace)
    ensures r.value == Failed(NoFiles) <==> q.files == []
    ensures r.value.Failed? && (r.value.failure.NoFiles? || r.value.failure.Unsupported?) ==> r.trace == []
  {
    match Resolve(q.language, Keys(q.files))
    case None => Run(s, [], Failed(NoFiles))
    case Some(res) =>
      match FromName(res.language)
      case None => Run(s, [], Failed(Unsupported(res.language)))
      case Some(l) =>
        if q.testCases == [] then
          var single := SingleRun(s, l, res.main, q.timeout);
          Run(single.script, single.trace,
            Returned(ExecResult(single.value.stdout, single.value.stderr, single.value.exitCode, None, None)))
        else
          var batch := Batch(s, l, res.main, q.testCases, q.timeout);
          Run(batch.script, batch.trace,
            match batch.value
            case Ok(result) => Returned(result)
            case Err(e) => Failed(Raised(e)))
  }

  /** The `try` block of `execute_code`: write the files, then resolve and run. */
  function InWorkspace(s: seq<Reply>, q: Request): (r: Run<Outcome>)
  {
    var writes := WriteFrom(s, q.files, 0);
    if writes.value.Some? then Run(writes.script, writes.trace, Failed(Raised(writes.value.value)))
    else
      var d := Dispatch(writes.script, q);
      Run(d.script, writes.trace + d.trace, d.value)
  }

  /**
   * `execute_code`: create the workspace (a failure here escapes with nothing
   * to clean up), then, inside `try ... finally`, write the files and
   * dispatch; the workspace is removed on every way out of the `try`.
   */
  function Execute(s: seq<Reply>, q: Request): (r: Run<Outcome>)
    ensures |r.trace| >= 1 && r.trace[0].op == MakeWorkspace
  {
    var mk := CallSpec(s, MakeWorkspace);
    if mk.reply.raised.Some? then Run(mk.rest, [mk.event], Failed(Raised(mk.reply.raised.value)))
    else
      var w := InWorkspace(mk.rest, q);
      Run(w.script, [mk.event] + w.trace + [Event(RemoveWorkspace, true)], w.value)
  }
}
