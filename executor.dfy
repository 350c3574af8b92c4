/**
 * `DockerExecutor.execute_code` (executor/app/docker_executor.py) as the
 * step-by-step procedure it is: calls on the container client one after the
 * other, the mutable `stdout`, `stderr` and `exit_code` of the single-run
 * mode, and the test loop that appends to `test_results`. Every method is
 * proved to make exactly the calls, and compute exactly the value, that the
 * functions of `ExecutionSpec` describe.
 */
module Executor {
  import opened Wrappers
  import opened PyText
  import opened Languages
  import opened Commands
  import opened Runtime
  import opened Verdict
  import opened ExecutionSpec

  lemma Associative<T>(a: seq<T>, b: seq<T>, c: seq<T>)
    ensures a + (b + c) == (a + b) + c
  {
  }

  class DockerExecutor {
    /** `self.client`: the only state the executor touches. */
    const client: ContainerClient

    constructor(client: ContainerClient)
      ensures this.client == client
    {
      this.client := client;
    }

    /** The loop writing each submitted file into the workspace. */
    method WriteFiles(files: seq<(string, string)>) returns (failed: Option<Error>)
      modifies client
      ensures var w := WriteFrom(old(client.script), files, 0);
        failed == w.value && client.script == w.script && client.log == old(client.log) + w.trace
    {
      var i := 0;
      while i < |files|
        invariant 0 <= i <= |files|
        invariant var whole := WriteFrom(old(client.script), files, 0);
          var rest := WriteFrom(client.script, files, i);
          && whole.value == rest.value && whole.script == rest.script
          && old(client.log) + whole.trace == client.log + rest.trace
      {
        ghost var logBefore := client.log;
        ghost var c := CallSpec(client.script, WriteFile(files[i].0, files[i].1));
        var reply := client.Call(WriteFile(files[i].0, files[i].1));
        if reply.raised.Some? {
          return reply.raised;
        }
        i := i + 1;
        Associative(logBefore, [c.event], WriteFrom(client.script, files, i).trace);
      }
      failed := None;
    }

    /** `_exec_in_container`: one `exec_run` under the deadline; `int(None)` raises for a missing exit code. */
    method ExecInContainer(command: string, timeout: int) returns (res: Result<ExecReply, Error>)
      modifies client
      ensures var r := ExecStep(old(client.script), command, timeout);
        res == r.value && client.script == r.script && client.log == old(client.log) + r.trace
    {
      var reply := client.Call(Exec(command, timeout));
      if reply.raised.Some? {
        res := Err(reply.raised.value);
      } else if reply.exitCode.None? {
        res := Err(OtherErr(NoExitCode));
      } else {
        res := Ok(ExecReply(reply.exitCode.value, reply.out, reply.err));
      }
    }

    /** The single-run mode: `try` create, populate, start, wait, collect; `except` classify; `finally` remove. */
    method RunSingle(l: Language, main: string, timeout: int) returns (streams: Streams)
      modifies client
      ensures var r := SingleRun(old(client.script), l, main, timeout);
        streams == r.value && client.script == r.script && client.log == old(client.log) + r.trace
    {
      ghost var log0 := client.log;
      ghost var s0 := client.script;
      var spec := CreateSpec(l, SingleRunCommand(l, main));
      assert SingleRun(s0, l, main, timeout) == SingleRunOf(s0, spec, timeout);
      ghost var cc := CallSpec(s0, Create(spec));
      var create := client.Call(Create(spec));
      if create.raised.Some? {
        // `container` is still None, so the `finally` clause removes nothing
        assert SingleRunOf(s0, spec, timeout) == Run(cc.rest, [cc.event], Classify(create.raised.value));
        return Classify(create.raised.value);
      }
      assert client.log == log0 + [cc.event];
      ghost var body := SingleRunBody(cc.rest, timeout);
      var outcome := RunSingleBody(timeout);
      match outcome {
        case Ok(s) => streams := s;
        case Err(e) => streams := Classify(e);
      }
      ghost var cr := CallSpec(body.script, Remove);
      var _ := client.Call(Remove);
      assert client.log == log0 + [cc.event] + body.trace + [cr.event];
      assert SingleRunOf(s0, spec, timeout) == Run(cr.rest, [cc.event] + body.trace + [cr.event], streams);
      Associative(log0, [cc.event] + body.trace, [cr.event]);
      Associative(log0, [cc.event], body.trace);
    }

    /** The body of the single-run `try` after `create`. */
    method RunSingleBody(timeout: int) returns (res: Result<Streams, Error>)
      modifies client
      ensures var r := SingleRunBody(old(client.script), timeout);
        res == r.value && client.script == r.script && client.log == old(client.log) + r.trace
    {
      ghost var log0 := client.log;
      ghost var s0 := client.script;
      ghost var cp := CallSpec(s0, PutArchive);
      var put := client.Call(PutArchive);
      if put.raised.Some? {
        return Err(put.raised.value);
      }
      ghost var cs := CallSpec(cp.rest, Start);
      var start := client.Call(Start);
      if start.raised.Some? {
        return Err(start.raised.value);
      }
      assert client.log == log0 + [cp.event, cs.event];
      ghost var w := AwaitExit(cs.rest, timeout);
      res := Await(timeout);
      assert SingleRunBody(s0, timeout) == Run(w.script, [cp.event, cs.event] + w.trace, w.value);
      Associative(log0, [cp.event, cs.event], w.trace);
    }

    /** `container.wait(timeout=...)`; on failure the container is stopped and the timeout raised. */
    method Await(timeout: int) returns (res: Result<Streams, Error>)
      modifies client
      ensures var r := AwaitExit(old(client.script), timeout);
        res == r.value && client.script == r.script && client.log == old(client.log) + r.trace
    {
      ghost var log0 := client.log;
      var wait := client.Call(Wait(timeout));
      if wait.raised.Some? {
        var stop := client.Call(Stop);
        if stop.raised.Some? {
          return Err(stop.raised.value);
        }
        return Err(TimeoutErr(TimeoutMessage(timeout)));
      }
      ghost var logAfterWait := client.log;
      res := CollectStreams();
      Associative(log0, logAfterWait[|log0|..], client.log[|logAfterWait|..]);
    }

    /** The two log reads and the `reload` that give the streams and the exit code. */
    method CollectStreams() returns (res: Result<Streams, Error>)
      modifies client
      ensures var r := Collect(old(client.script));
        res == r.value && client.script == r.script && client.log == old(client.log) + r.trace
    {
      var out := client.Call(Logs(StdOut));
      if out.raised.Some? {
        return Err(out.raised.value);
      }
      var err := client.Call(Logs(StdErr));
      if err.raised.Some? {
        return Err(err.raised.value);
      }
      var reload := client.Call(Reload);
      if reload.raised.Some? {
        return Err(reload.raised.value);
      }
      var exit := if reload.exitCode.Some? then reload.exitCode.value else 0;
      res := Ok(Streams(out.out, ShownStderr(exit, err.err), exit));
    }

    /** One test's `exec_run`; a timeout is turned into a failed run instead of ending the batch. */
    method RunTest(runner: string, tc: TestCase, timeout: int) returns (res: Result<ExecReply, Error>)
      modifies client
      ensures var r := TestStep(old(client.script), runner, tc, timeout);
        res == r.value && client.script == r.script && client.log == old(client.log) + r.trace
    {
      var outcome := ExecInContainer(TestCommand(tc.input, runner), timeout);
      match outcome {
        case Ok(reply) => res := Ok(reply);
        case Err(e) =>
          if e.TimeoutErr? {
            res := Ok(ExecReply(-1, "", TimeoutMessage(timeout)));
          } else {
            res := Err(e);
          }
      }
    }

    /** The test loop of batch mode, appending one result per test and keeping the first error. */
    method RunTests(runner: string, tests: seq<TestCase>, timeout: int) returns (res: Result<(seq<TestResult>, string), Error>)
      modifies client
      ensures var r := TestsFrom(old(client.script), runner, tests, 0, timeout, [], "");
        res == r.value && client.script == r.script && client.log == old(client.log) + r.trace
    {
      var results: seq<TestResult> := [];
      var first := "";
      var i := 0;
      while i < |tests|
        invariant 0 <= i <= |tests|
        invariant ResultsMatch(results, tests, i)
        invariant var whole := TestsFrom(old(client.script), runner, tests, 0, timeout, [], "");
          var rest := TestsFrom(client.script, runner, tests, i, timeout, results, first);
          && whole.value == rest.value && whole.script == rest.script
          && old(client.log) + whole.trace == client.log + rest.trace
      {
        ghost var before := client.script;
        ghost var logBefore := client.log;
        ghost var step := TestStep(before, runner, tests[i], timeout);
        var outcome := RunTest(runner, tests[i], timeout);
        if outcome.Err? {
          assert TestsFrom(before, runner, tests, i, timeout, results, first) == Run(step.script, step.trace, Err(outcome.error));
          return Err(outcome.error);
        }
        var reply := outcome.value;
        TestsFromStep(before, runner, tests, i, timeout, results, first, reply);
        results := results + [Judge(i + 1, tests[i], reply.exitCode, reply.out, reply.err)];
        first := FirstError(first, reply.err);
        i := i + 1;
        Associative(logBefore, step.trace, TestsFrom(client.script, runner, tests, i, timeout, results, first).trace);
      }
      res := Ok((results, first));
    }

    /** The batch mode: `try` create, start, populate, build, test, sum up; `finally` remove; exceptions propagate. */
    method RunBatch(l: Language, main: string, tests: seq<TestCase>, timeout: int) returns (res: Result<ExecResult, Error>)
      modifies client
      ensures var r := Batch(old(client.script), l, main, tests, timeout);
        res == r.value && client.script == r.script && client.log == old(client.log) + r.trace
    {
      ghost var log0 := client.log;
      var create := client.Call(Create(CreateSpec(l, KeepAlive)));
      if create.raised.Some? {
        return Err(create.raised.value);
      }
      ghost var logAfterCreate := client.log;
      ghost var body := BatchBody(client.script, l, main, tests, timeout);
      res := RunBatchBody(l, main, tests, timeout);
      ghost var logAfterBody := client.log;
      var _ := client.Call(Remove);
      Associative(log0, logAfterCreate[|log0|..], body.trace);
      assert client.log == log0 + (logAfterCreate[|log0|..] + body.trace) + client.log[|logAfterBody|..];
    }

    /** The body of the batch `try` after `create`. */
    method RunBatchBody(l: Language, main: string, tests: seq<TestCase>, timeout: int) returns (res: Result<ExecResult, Error>)
      modifies client
      ensures var r := BatchBody(old(client.script), l, main, tests, timeout);
        res == r.value && client.script == r.script && client.log == old(client.log) + r.trace
    {
      ghost var log0 := client.log;
      ghost var s0 := client.script;
      ghost var cs := CallSpec(s0, Start);
      var start := client.Call(Start);
      if start.raised.Some? {
        return Err(start.raised.value);
      }
      ghost var cp := CallSpec(cs.rest, PutArchive);
      var put := client.Call(PutArchive);
      if put.raised.Some? {
        return Err(put.raised.value);
      }
      assert client.log == log0 + [cs.event, cp.event];
      ghost var rest := BuildAndTest(cp.rest, l, main, tests, timeout);
      res := RunBuildAndTest(l, main, tests, timeout);
      assert BatchBody(s0, l, main, tests, timeout) == Run(rest.script, [cs.event, cp.event] + rest.trace, rest.value);
      Associative(log0, [cs.event, cp.event], rest.trace);
    }

    /** The build step followed by the test loop. */
    method RunBuildAndTest(l: Language, main: string, tests: seq<TestCase>, timeout: int) returns (res: Result<ExecResult, Error>)
      modifies client
      ensures var r := BuildAndTest(old(client.script), l, main, tests, timeout);
        res == r.value && client.script == r.script && client.log == old(client.log) + r.trace
    {
      ghost var log0 := client.log;
      var built := RunBuild(l, main, timeout);
      if built.Err? {
        return Err(built.error);
      }
      ghost var logAfterBuild := client.log;
      var run := RunTests(RunnerCommand(l, main), tests, timeout);
      match run {
        case Ok(done) => res := Ok(BatchResult(done.0, done.1));
        case Err(e) => res := Err(e);
      }
      Associative(log0, logAfterBuild[|log0|..], client.log[|logAfterBuild|..]);
    }

    /** The one-time build: one `exec_run` of the compile command, whose exit code and output are ignored. */
    method RunBuild(l: Language, main: string, timeout: int) returns (res: Result<ExecReply, Error>)
      modifies client
      ensures var r := Build(old(client.script), l, main, timeout);
        res == r.value && client.script == r.script && client.log == old(client.log) + r.trace
    {
      var compile := CompileCommand(l, main);
      if compile.Some? {
        res := ExecInContainer(compile.value, timeout);
      } else {
        res := Ok(ExecReply(0, "", ""));
      }
    }

    /** `execute_code`: the workspace is made, then removed however its `try` block ends. */
    method ExecuteCode(q: Request) returns (o: Outcome)
      modifies client
      ensures var r := Execute(old(client.script), q);
        o == r.value && client.script == r.script && client.log == old(client.log) + r.trace
    {
      ghost var log0 := client.log;
      var mk := client.Call(MakeWorkspace);
      if mk.raised.Some? {
        return Failed(Raised(mk.raised.value));
      }
      ghost var logAfterMake := client.log;
      o := InWorkspace(q);
      ghost var logAfterTry := client.log;
      client.Record(RemoveWorkspace);
      Associative(log0, logAfterMake[|log0|..], logAfterTry[|logAfterMake|..]);
    }

    /** The `try` block: write the files, then resolve and run. */
    method InWorkspace(q: Request) returns (o: Outcome)
      modifies client
      ensures var r := ExecutionSpec.InWorkspace(old(client.script), q);
        o == r.value && client.script == r.script && client.log == old(client.log) + r.trace
    {
      ghost var log0 := client.log;
      var failed := WriteFiles(q.files);
      if failed.Some? {
        return Failed(Raised(failed.value));
      }
      ghost var logAfterWrite := client.log;
      o := Dispatch(q);
      Associative(log0, logAfterWrite[|log0|..], client.log[|logAfterWrite|..]);
    }

    /** Resolution, validation and the choice of mode, inside the workspace's `try`. */
    method Dispatch(q: Request) returns (o: Outcome)
      modifies client
      ensures var r := ExecutionSpec.Dispatch(old(client.script), q);
        o == r.value && client.script == r.script && client.log == old(client.log) + r.trace
    {
      var resolved := ResolveLanguageAndMain(q.language, Keys(q.files));
      if resolved.None? {
        return Failed(NoFiles);
      }
      var language := resolved.value.language;
      var main := resolved.value.main;
      var config := FromName(language);
      if config.None? {
        return Failed(Unsupported(language));
      }
      var l := config.value;
      if q.testCases == [] {
        var streams := RunSingle(l, main, q.timeout);
        o := Returned(ExecResult(streams.stdout, streams.stderr, streams.exitCode, None, None));
      } else {
        var batch := RunBatch(l, main, q.testCases, q.timeout);
        match batch {
          case Ok(result) => o := Returned(result);
          case Err(e) => o := Failed(Raised(e));
        }
      }
    }
  }
}
