/**
 * What `execute_code` (executor/app/docker_executor.py) guarantees whatever
 * the runtime replies: the workspace is removed on every way out once it was
 * made, at most one container is created and it is removed exactly when its
 * creation succeeded, requests that cannot be run touch no container, the
 * single-run mode never raises once it is reached, and batch mode reports one
 * result per test with a verdict that agrees with them.
 */
module ExecutionProps {
  import opened Wrappers
  import opened PyText
  import opened Languages
  import opened Commands
  import opened Runtime
  import opened Verdict
  import opened ExecutionSpec

  // ------------------------------------------------------------ workspace

  predicate WorkspaceOp(op: Op)
  {
    op.MakeWorkspace? || op.RemoveWorkspace?
  }

  predicate NoWorkspaceOps(t: seq<Event>)
  {
    forall k :: 0 <= k < |t| ==> !WorkspaceOp(t[k].op)
  }

  /** Every call of a container's life acts on the container. */
  lemma LifecycleOnlyContainerOps(t: seq<Event>)
    requires Lifecycle(t)
    ensures forall k :: 0 <= k < |t| ==> ContainerOp(t[k].op)
  {
    forall k | 0 <= k < |t|
      ensures ContainerOp(t[k].op)
    {
      if 0 < k < |t| - 1 {
        assert MiddleOp(t[k].op);
      }
    }
  }

  lemma DispatchOps(s: seq<Reply>, q: Request)
    ensures forall k :: 0 <= k < |Dispatch(s, q).trace| ==> ContainerOp(Dispatch(s, q).trace[k].op)
  {
    var t := Dispatch(s, q).trace;
    if t != [] {
      LifecycleOnlyContainerOps(t);
    }
  }

  /** The `try` block of `execute_code` never touches the workspace directory itself. */
  lemma InWorkspaceKeepsWorkspace(s: seq<Reply>, q: Request)
    ensures NoWorkspaceOps(InWorkspace(s, q).trace)
  {
    var writes := WriteFrom(s, q.files, 0);
    if writes.value.None? {
      DispatchOps(writes.script, q);
      var t := writes.trace + Dispatch(writes.script, q).trace;
      assert forall k :: |writes.trace| <= k < |t| ==> t[k] == Dispatch(writes.script, q).trace[k - |writes.trace|];
    }
  }

  /**
   * The workspace is made by the first call. When that fails, it is the only
   * call and its exception escapes; otherwise the workspace is removed by the
   * last call, however the request ends, and by no other.
   */
  lemma WorkspaceAlwaysRemoved(s: seq<Reply>, q: Request)
    ensures var r := Execute(s, q);
      && r.trace[0].op == MakeWorkspace
      && (!r.trace[0].ok ==> |r.trace| == 1 && r.value.Failed? && r.value.failure.Raised?)
      && (r.trace[0].ok ==> |r.trace| >= 2 && r.trace[|r.trace| - 1] == Event(RemoveWorkspace, true))
      && (r.trace[0].ok ==> forall k :: 0 <= k < |r.trace| ==>
            (r.trace[k].op.RemoveWorkspace? <==> k == |r.trace| - 1)
            && (r.trace[k].op.MakeWorkspace? <==> k == 0))
  {
    var mk := CallSpec(s, MakeWorkspace);
    if mk.reply.raised.None? {
      var w := InWorkspace(mk.rest, q);
      InWorkspaceKeepsWorkspace(mk.rest, q);
      assert Execute(s, q).trace == [mk.event] + w.trace + [Event(RemoveWorkspace, true)];
      BracketedByWorkspace(mk.event, w.trace);
    }
  }

  /** A trace made of the workspace's creation, calls that leave it alone, and its removal. */
  lemma BracketedByWorkspace(first: Event, inner: seq<Event>)
    requires first.op == MakeWorkspace && NoWorkspaceOps(inner)
    ensures var t := [first] + inner + [Event(RemoveWorkspace, true)];
      && |t| >= 2 && t[|t| - 1] == Event(RemoveWorkspace, true)
      && forall k :: 0 <= k < |t| ==>
           (t[k].op.RemoveWorkspace? <==> k == |t| - 1) && (t[k].op.MakeWorkspace? <==> k == 0)
  {
    var t := [first] + inner + [Event(RemoveWorkspace, true)];
    assert forall k :: 1 <= k < |t| - 1 ==> t[k] == inner[k - 1];
  }

  // ------------------------------------------------------------ containers

  /** The calls of a trace that act on a container, in order. */
  function ContainerEvents(t: seq<Event>): (c: seq<Event>)
    ensures |c| <= |t|
    ensures forall k :: 0 <= k < |c| ==> ContainerOp(c[k].op)
  {
    if t == [] then []
    else if ContainerOp(t[0].op) then [t[0]] + ContainerEvents(t[1..])
    else ContainerEvents(t[1..])
  }

  lemma {:induction false} ContainerEventsAppend(a: seq<Event>, b: seq<Event>)
    ensures ContainerEvents(a + b) == ContainerEvents(a) + ContainerEvents(b)
    decreases |a|
  {
    if a == [] {
      assert a + b == b;
    } else {
      assert (a + b)[1..] == a[1..] + b;
      ContainerEventsAppend(a[1..], b);
    }
  }

  lemma {:induction false} ContainerEventsOfNone(t: seq<Event>)
    requires forall k :: 0 <= k < |t| ==> !ContainerOp(t[k].op)
    ensures ContainerEvents(t) == []
    decreases |t|
  {
    if t != [] {
      ContainerEventsOfNone(t[1..]);
    }
  }

  lemma {:induction false} ContainerEventsOfAll(t: seq<Event>)
    requires forall k :: 0 <= k < |t| ==> ContainerOp(t[k].op)
    ensures ContainerEvents(t) == t
    decreases |t|
  {
    if t != [] {
      ContainerEventsOfAll(t[1..]);
      assert t == [t[0]] + t[1..];
    }
  }

  /** The container calls of the `try` block are exactly those of its dispatch, or none when a write fails. */
  lemma ContainerEventsOfInWorkspace(s: seq<Reply>, q: Request)
    ensures var c := ContainerEvents(InWorkspace(s, q).trace);
      var writes := WriteFrom(s, q.files, 0);
      && (writes.value.None? ==> c == Dispatch(writes.script, q).trace)
      && (writes.value.Some? ==> c == [])
  {
    var writes := WriteFrom(s, q.files, 0);
    ContainerEventsOfNone(writes.trace);
    if writes.value.None? {
      var d := Dispatch(writes.script, q);
      DispatchOps(writes.script, q);
      ContainerEventsOfAll(d.trace);
      ContainerEventsAppend(writes.trace, d.trace);
    }
  }

  /** The container calls of a whole request are exactly those of its dispatch, or none. */
  lemma ContainerEventsOfExecute(s: seq<Reply>, q: Request)
    ensures var c := ContainerEvents(Execute(s, q).trace);
      var mk := CallSpec(s, MakeWorkspace);
      && (mk.reply.raised.None? ==> c == ContainerEvents(InWorkspace(mk.rest, q).trace))
      && (mk.reply.raised.Some? ==> c == [])
  {
    var mk := CallSpec(s, MakeWorkspace);
    var tail := [Event(RemoveWorkspace, true)];
    ContainerEventsOfNone(tail);
    ContainerEventsOfNone([mk.event]);
    if mk.reply.raised.None? {
      var w := InWorkspace(mk.rest, q);
      ContainerEventsAppend([mk.event], w.trace);
      ContainerEventsAppend([mk.event] + w.trace, tail);
    }
  }

  /**
   * At most one container per request: the container calls are either none
   * or the life of one container (created first, removed last exactly when
   * its creation succeeded, nothing else created or removed in between).
   */
  lemma OneContainerLifecycle(s: seq<Reply>, q: Request)
    ensures var c := ContainerEvents(Execute(s, q).trace);
      c == [] || Lifecycle(c)
  {
    ContainerEventsOfExecute(s, q);
    ContainerEventsOfInWorkspace(CallSpec(s, MakeWorkspace).rest, q);
  }

  /** What `Lifecycle` means for removal: the container is removed, once and last, exactly when it was created. */
  lemma LifecycleRemoval(t: seq<Event>)
    requires Lifecycle(t)
    ensures (exists k :: 0 <= k < |t| && t[k].op == Remove) <==> t[0].ok
    ensures forall k :: 0 <= k < |t| && t[k].op == Remove ==> k == |t| - 1
    ensures forall k :: 0 < k < |t| ==> !t[k].op.Create?
  {
    if t[0].ok {
      assert t[|t| - 1].op == Remove;
    }
    forall k | 0 < k < |t| - 1
      ensures t[k].op != Remove && !t[k].op.Create?
    {
      assert MiddleOp(t[k].op);
    }
  }

  /** Requests that fail before a mode is chosen (no files, unknown language) make no container call. */
  lemma RejectedRequestsCreateNothing(s: seq<Reply>, q: Request)
    ensures var r := Execute(s, q);
      r.value.Failed? && (r.value.failure.NoFiles? || r.value.failure.Unsupported?) ==> ContainerEvents(r.trace) == []
  {
    ContainerEventsOfExecute(s, q);
    ContainerEventsOfInWorkspace(CallSpec(s, MakeWorkspace).rest, q);
  }

  /**
   * An empty `files` fails with the `IndexError` of `list(files.keys())[0]`
   * once the workspace exists: nothing but making and removing the workspace happens.
   */
  lemma NoFilesRequest(s: seq<Reply>, q: Request)
    requires q.files == []
    ensures var r := Execute(s, q);
      r.trace[0].ok ==> r.value == Failed(NoFiles) && r.trace == [Event(MakeWorkspace, true), Event(RemoveWorkspace, true)]
  {
    var mk := CallSpec(s, MakeWorkspace);
    if mk.reply.raised.None? {
      assert WriteFrom(mk.rest, q.files, 0) == Run(mk.rest, [], None);
    }
  }

  /**
   * A language that resolves to a name with no configuration is rejected with
   * that name, once the files are written, and no container is made.
   */
  lemma UnsupportedLanguageRejected(s: seq<Reply>, q: Request)
    requires q.files != []
    requires FromName(Resolve(q.language, Keys(q.files)).value.language).None?
    ensures var r := InWorkspace(s, q);
      && (WriteFrom(s, q.files, 0).value.None? ==> r.value == Failed(Unsupported(Resolve(q.language, Keys(q.files)).value.language)))
      && ContainerEvents(r.trace) == []
  {
    ContainerEventsOfInWorkspace(s, q);
  }

  // ------------------------------------------------------------ single run

  /** The single-run mode never lets an exception out: once it is reached, the request returns a result without tests or verdict. */
  lemma SingleRunAlwaysReturns(s: seq<Reply>, q: Request)
    requires q.testCases == []
    ensures var r := Execute(s, q);
      ContainerEvents(r.trace) != [] ==> r.value.Returned? && r.value.result.testResults.None? && r.value.result.verdict.None?
  {
    ContainerEventsOfExecute(s, q);
    ContainerEventsOfInWorkspace(CallSpec(s, MakeWorkspace).rest, q);
  }

  /** A single run's outcome: what the container wrote, or the classified failure; never test results. */
  lemma SingleResultShape(s: seq<Reply>, q: Request)
    requires q.testCases == []
    ensures var r := Execute(s, q);
      r.value.Returned? ==> r.value.result.testResults.None? && r.value.result.verdict.None?
  {
  }

  /**
   * A program that outlives its deadline: the wait raises, the container is
   * stopped and removed, and the result is the timeout message with exit code -1.
   */
  lemma SingleRunTimeout(s: seq<Reply>, l: Language, main: string, timeout: int)
    requires |s| >= 5
    requires s[0].raised.None? && s[1].raised.None? && s[2].raised.None?
    requires s[3].raised.Some? && s[4].raised.None?
    ensures var r := SingleRun(s, l, main, timeout);
      && r.value == Streams("", TimeoutMessage(timeout), -1)
      && |r.trace| == 6
      && r.trace[3] == Event(Wait(timeout), false)
      && r.trace[4] == Event(Stop, true)
      && r.trace[5].op == Remove
  {
    TimeoutLifecycle(s, CreateSpec(l, SingleRunCommand(l, main)), timeout);
  }

  /** The same for a container created from any spec. */
  lemma TimeoutLifecycle(s: seq<Reply>, spec: ContainerSpec, timeout: int)
    requires |s| >= 5
    requires s[0].raised.None? && s[1].raised.None? && s[2].raised.None?
    requires s[3].raised.Some? && s[4].raised.None?
    ensures var r := SingleRunOf(s, spec, timeout);
      && r.value == Streams("", TimeoutMessage(timeout), -1)
      && |r.trace| == 6
      && r.trace[3] == Event(Wait(timeout), false)
      && r.trace[4] == Event(Stop, true)
      && r.trace[5].op == Remove
  {
    var s1 := s[1..];
    assert s1[0] == s[1] && s1[1] == s[2] && s1[2] == s[3] && s1[3] == s[4];
    BodyTimesOut(s1, timeout);
  }

  /** Archive and start succeed, then the wait raises and the stop succeeds. */
  lemma BodyTimesOut(s: seq<Reply>, timeout: int)
    requires |s| >= 4
    requires s[0].raised.None? && s[1].raised.None? && s[2].raised.Some? && s[3].raised.None?
    ensures var body := SingleRunBody(s, timeout);
      && body.value == Err(TimeoutErr(TimeoutMessage(timeout)))
      && body.trace == [Event(PutArchive, true), Event(Start, true), Event(Wait(timeout), false), Event(Stop, true)]
  {
    var s2 := s[1..][1..];
    assert s2 == s[2..] && s2[0] == s[2] && s2[1] == s[3];
    AwaitTimesOut(s2, timeout);
  }

  /** A wait that raises, then a stop that succeeds: the timeout error, after those two calls. */
  lemma AwaitTimesOut(s: seq<Reply>, timeout: int)
    requires |s| >= 2 && s[0].raised.Some? && s[1].raised.None?
    ensures var w := AwaitExit(s, timeout);
      && w.value == Err(TimeoutErr(TimeoutMessage(timeout)))
      && w.trace == [Event(Wait(timeout), false), Event(Stop, true)]
  {
    assert s[1..][0] == s[1];
  }

  /**
   * A program that finishes within its deadline, with every call returning:
   * the result is its standard output, the exit code `ExitCode or 0` of the
   * reload, and its error output exactly when that code is non-zero and the
   * error output is not blank.
   */
  lemma SingleRunCompletes(s: seq<Reply>, l: Language, main: string, timeout: int)
    requires forall k :: 0 <= k < 7 ==> NthReply(s, k).raised.None?
    ensures var r := SingleRun(s, l, main, timeout);
      var exit := ExitOrZero(NthReply(s, 6));
      var err := NthReply(s, 5).err;
      && r.value.stdout == NthReply(s, 4).out
      && r.value.exitCode == exit
      && (exit != 0 && !IsBlank(err) ==> r.value.stderr == err)
      && (exit == 0 || IsBlank(err) ==> r.value.stderr == "")
  {
    CompletedLifecycle(s, CreateSpec(l, SingleRunCommand(l, main)), timeout);
    DropNth(s, 4, 0);
    DropNth(s, 4, 1);
    DropNth(s, 4, 2);
  }

  /** The same for a container created from any spec: the result is what `Collect` makes of the replies after the wait. */
  lemma CompletedLifecycle(s: seq<Reply>, spec: ContainerSpec, timeout: int)
    requires forall k :: 0 <= k < 7 ==> NthReply(s, k).raised.None?
    ensures Collect(Drop(s, 4)).value.Ok?
    ensures SingleRunOf(s, spec, timeout).value == Collect(Drop(s, 4)).value.value
  {
    NextIsFirst(s);
    forall j | 0 <= j < 6
      ensures NthReply(Drop(s, 1), j).raised.None?
    {
      DropNth(s, 1, j);
    }
    BodyCompletes(Drop(s, 1), timeout);
    DropDrop(s, 1, 3);
    DropNth(s, 4, 0);
    DropNth(s, 4, 1);
    DropNth(s, 4, 2);
  }

  /** Archive, start and wait return: the body's result is what `Collect` makes of the replies after them. */
  lemma BodyCompletes(s: seq<Reply>, timeout: int)
    requires NthReply(s, 0).raised.None? && NthReply(s, 1).raised.None? && NthReply(s, 2).raised.None?
    ensures SingleRunBody(s, timeout).value == Collect(Drop(s, 3)).value
  {
    NextIsFirst(s);
    NextIsFirst(Drop(s, 1));
    NextIsFirst(Drop(s, 2));
    DropNth(s, 1, 0);
    DropNth(s, 2, 0);
    DropDrop(s, 1, 1);
    DropDrop(s, 2, 1);
  }

  /** Output on the error stream is reported only when the program exited with a non-zero code. */
  lemma SingleRunHidesStderrOnSuccess(s: seq<Reply>)
    ensures var r := Collect(s);
      r.value.Ok? && r.value.value.exitCode == 0 ==> r.value.value.stderr == ""
  {
  }

  // ---------------------------------------------------------- test replies

  /** Each of the next `n` replies lets its test finish, on time or not. */
  predicate TestsRun(s: seq<Reply>, n: nat, timeout: int)
  {
    forall j :: 0 <= j < n ==> TestOutcome(NthReply(s, j), timeout).Ok?
  }

  /** The exit codes and streams those `n` tests end with. */
  function TestReplies(s: seq<Reply>, n: nat, timeout: int): (replies: seq<ExecReply>)
    requires TestsRun(s, n, timeout)
    ensures |replies| == n
  {
    seq(n, j requires 0 <= j < n => TestOutcome(NthReply(s, j), timeout).value)
  }

  /** `f` applied at each position `i + k` to the `k`-th elements of `xs` and `ys`. */
  function MapPairs<X, Y, Z>(f: (nat, X, Y) -> Z, i: nat, xs: seq<X>, ys: seq<Y>): (zs: seq<Z>)
    requires |xs| == |ys|
    ensures |zs| == |xs|
    ensures forall k :: 0 <= k < |xs| ==> zs[k] == f(i + k, xs[k], ys[k])
  {
    seq(|xs|, k requires 0 <= k < |xs| => f(i + k, xs[k], ys[k]))
  }

  lemma MapPairsCons<X, Y, Z>(f: (nat, X, Y) -> Z, i: nat, xs: seq<X>, ys: seq<Y>)
    requires 0 < |xs| == |ys|
    ensures MapPairs(f, i, xs, ys) == [f(i, xs[0], ys[0])] + MapPairs(f, i + 1, xs[1..], ys[1..])
  {
    var all := MapPairs(f, i, xs, ys);
    var split := [f(i, xs[0], ys[0])] + MapPairs(f, i + 1, xs[1..], ys[1..]);
    forall k | 0 < k < |xs|
      ensures all[k] == split[k]
    {
      assert xs[1..][k - 1] == xs[k] && ys[1..][k - 1] == ys[k] && (i + 1) + (k - 1) == i + k;
    }
    assert |all| == |split|;
  }

  /** The result of the test at (zero-based) position `j`, judged on its reply. */
  function JudgeTest(j: nat, tc: TestCase, reply: ExecReply): TestResult
  {
    Judge(j + 1, tc, reply.exitCode, reply.out, reply.err)
  }

  /** The results the tests from the `i`-th on get from their replies, numbered from `i + 1`. */
  function Judged(tests: seq<TestCase>, i: nat, replies: seq<ExecReply>): (results: seq<TestResult>)
    requires i + |replies| == |tests|
    ensures |results| == |replies|
  {
    MapPairs(JudgeTest, i, tests[i..], replies)
  }

  /** The stripped error output of the first test that wrote a non-blank one, or nothing. */
  function FirstErrorOf(replies: seq<ExecReply>): string
  {
    if replies == [] then ""
    else if !IsBlank(replies[0].err) then Strip(replies[0].err)
    else FirstErrorOf(replies[1..])
  }

  /** `FirstErrorOf` is empty exactly when no error output is non-blank, and otherwise the first non-blank one, stripped. */
  lemma {:induction false} FirstErrorOfIsFirstNonBlank(replies: seq<ExecReply>)
    ensures FirstErrorOf(replies) == "" <==> forall k :: 0 <= k < |replies| ==> IsBlank(replies[k].err)
    ensures forall j :: (0 <= j < |replies| && !IsBlank(replies[j].err) && forall k :: 0 <= k < j ==> IsBlank(replies[k].err))
                     ==> FirstErrorOf(replies) == Strip(replies[j].err)
  {
    if replies != [] {
      var e := replies[0].err;
      if !IsBlank(e) {
        assert FirstError("", e) == Strip(e);
      } else {
        var rest := replies[1..];
        FirstErrorOfIsFirstNonBlank(rest);
        assert forall k :: 1 <= k < |replies| ==> replies[k] == rest[k - 1];
        forall j | 0 <= j < |replies| && !IsBlank(replies[j].err) && (forall k :: 0 <= k < j ==> IsBlank(replies[k].err))
          ensures FirstErrorOf(replies) == Strip(replies[j].err)
        {
          assert j >= 1 && replies[j] == rest[j - 1];
          assert forall k :: 0 <= k < j - 1 ==> rest[k] == replies[k + 1];
        }
      }
    }
  }

  /**
   * What the test loop from the `i`-th test on computes from the script `s`:
   * it finishes exactly when every one of the next replies lets its test
   * finish; then each result is the judgement of its test on its own reply,
   * and the first error is the one kept so far or else the first non-blank
   * error output among those replies.
   */
  predicate JudgesReplies(v: Result<(seq<TestResult>, string), Error>, s: seq<Reply>, tests: seq<TestCase>, i: nat, timeout: int,
                          results: seq<TestResult>, first: string)
    requires i <= |tests|
  {
    && (v.Ok? <==> TestsRun(s, |tests| - i, timeout))
    && (v.Ok? ==>
         && v.value.0 == results + Judged(tests, i, TestReplies(s, |tests| - i, timeout))
         && v.value.1 == (if first != [] then first else FirstErrorOf(TestReplies(s, |tests| - i, timeout))))
  }

  /** The test loop judges each test on the reply to its own `exec_run`. */
  lemma {:induction false} TestsFromJudgesReplies(s: seq<Reply>, runner: string, tests: seq<TestCase>, i: nat, timeout: int,
                                                   results: seq<TestResult>, first: string)
    requires ResultsMatch(results, tests, i)
    ensures JudgesReplies(TestsFrom(s, runner, tests, i, timeout, results, first).value, s, tests, i, timeout, results, first)
    decreases |tests| - i
  {
    if i == |tests| {
      assert TestReplies(s, 0, timeout) == [];
      assert results + [] == results;
    } else {
      var step := TestStep(s, runner, tests[i], timeout);
      if step.value.Ok? {
        var reply := step.value.value;
        var extended := results + [Judge(i + 1, tests[i], reply.exitCode, reply.out, reply.err)];
        ResultsExtend(results, tests, i, reply);
        var rest := TestsFrom(step.script, runner, tests, i + 1, timeout, extended, FirstError(first, reply.err));
        assert TestsFrom(s, runner, tests, i, timeout, results, first).value == rest.value by {
          TestsFromStep(s, runner, tests, i, timeout, results, first, reply);
        }
        TestsFromJudgesReplies(step.script, runner, tests, i + 1, timeout, extended, FirstError(first, reply.err));
        JudgeNextReply(s, step.script, tests, i, timeout, results, first, reply, rest.value);
      }
    }
  }

  /** One turn of the induction: the loop's outcome from the next test on, seen from the script before this test's call. */
  lemma JudgeNextReply(s: seq<Reply>, script: seq<Reply>, tests: seq<TestCase>, i: nat, timeout: int,
                       results: seq<TestResult>, first: string, reply: ExecReply,
                       v: Result<(seq<TestResult>, string), Error>)
    requires i < |tests| && script == Drop(s, 1)
    requires TestOutcome(NthReply(s, 0), timeout) == Ok(reply)
    requires JudgesReplies(v, script, tests, i + 1, timeout,
      results + [Judge(i + 1, tests[i], reply.exitCode, reply.out, reply.err)], FirstError(first, reply.err))
    ensures JudgesReplies(v, s, tests, i, timeout, results, first)
  {
    var n := |tests| - i;
    TestsRunShift(s, n, timeout);
    assert v.Ok? <==> TestsRun(s, n, timeout);
    if v.Ok? {
      JudgeNextValue(s, tests, i, timeout, results, first, reply, v.value);
    }
  }

  /** The value part of `JudgeNextReply`, once every test has finished. */
  lemma JudgeNextValue(s: seq<Reply>, tests: seq<TestCase>, i: nat, timeout: int,
                       results: seq<TestResult>, first: string, reply: ExecReply,
                       value: (seq<TestResult>, string))
    requires i < |tests| && TestOutcome(NthReply(s, 0), timeout) == Ok(reply)
    requires TestsRun(s, |tests| - i, timeout) && TestsRun(Drop(s, 1), |tests| - i - 1, timeout)
    requires value.0 == results + [Judge(i + 1, tests[i], reply.exitCode, reply.out, reply.err)]
      + Judged(tests, i + 1, TestReplies(Drop(s, 1), |tests| - i - 1, timeout))
    requires value.1 == (if FirstError(first, reply.err) != [] then FirstError(first, reply.err)
      else FirstErrorOf(TestReplies(Drop(s, 1), |tests| - i - 1, timeout)))
    ensures value.0 == results + Judged(tests, i, TestReplies(s, |tests| - i, timeout))
    ensures value.1 == (if first != [] then first else FirstErrorOf(TestReplies(s, |tests| - i, timeout)))
  {
    var n := |tests| - i;
    var rest := TestReplies(Drop(s, 1), n - 1, timeout);
    var all := TestReplies(s, n, timeout);
    TestRepliesCons(s, n, timeout, reply);
    JudgedStep(tests, i, results, first, reply, rest, all);
  }

  /** One turn of the induction: judging one more reply, and the first error it may set. */
  lemma JudgedStep(tests: seq<TestCase>, i: nat, results: seq<TestResult>, first: string,
                   reply: ExecReply, rest: seq<ExecReply>, all: seq<ExecReply>)
    requires i + 1 + |rest| == |tests| && all == [reply] + rest
    ensures results + Judged(tests, i, all)
      == results + [Judge(i + 1, tests[i], reply.exitCode, reply.out, reply.err)] + Judged(tests, i + 1, rest)
    ensures (if first != [] then first else FirstErrorOf(all))
      == (if FirstError(first, reply.err) != [] then FirstError(first, reply.err) else FirstErrorOf(rest))
  {
    JudgedCons(tests, i, reply, rest);
    assert all[1..] == rest;
  }

  /** The replies of `n` tests: the first, then those of the script after one call. */
  lemma TestRepliesCons(s: seq<Reply>, n: nat, timeout: int, reply: ExecReply)
    requires n >= 1 && TestOutcome(NthReply(s, 0), timeout) == Ok(reply)
    requires TestsRun(s, n, timeout) && TestsRun(Drop(s, 1), n - 1, timeout)
    ensures TestReplies(s, n, timeout) == [reply] + TestReplies(Drop(s, 1), n - 1, timeout)
  {
    var rest := TestReplies(Drop(s, 1), n - 1, timeout);
    forall j | 0 <= j < n - 1
      ensures rest[j] == TestReplies(s, n, timeout)[j + 1]
    {
      DropNth(s, 1, j);
    }
  }

  /** The replies after the first are the script after one call. */
  lemma TestsRunShift(s: seq<Reply>, n: nat, timeout: int)
    requires n >= 1 && TestOutcome(NthReply(s, 0), timeout).Ok?
    ensures TestsRun(s, n, timeout) <==> TestsRun(Drop(s, 1), n - 1, timeout)
  {
    if TestsRun(s, n, timeout) {
      forall j | 0 <= j < n - 1
        ensures TestOutcome(NthReply(Drop(s, 1), j), timeout).Ok?
      {
        DropNth(s, 1, j);
        assert TestOutcome(NthReply(s, j + 1), timeout).Ok?;
      }
    }
    if TestsRun(Drop(s, 1), n - 1, timeout) {
      forall j | 0 < j < n
        ensures TestOutcome(NthReply(s, j), timeout).Ok?
      {
        DropNth(s, 1, j - 1);
        assert TestOutcome(NthReply(Drop(s, 1), j - 1), timeout).Ok?;
      }
    }
  }

  lemma JudgedCons(tests: seq<TestCase>, i: nat, reply: ExecReply, rest: seq<ExecReply>)
    requires i + 1 + |rest| == |tests|
    ensures Judged(tests, i, [reply] + rest)
      == [Judge(i + 1, tests[i], reply.exitCode, reply.out, reply.err)] + Judged(tests, i + 1, rest)
  {
    MapPairsCons(JudgeTest, i, tests[i..], [reply] + rest);
    assert tests[i..][0] == tests[i] && tests[i..][1..] == tests[i + 1..];
    assert ([reply] + rest)[0] == reply && ([reply] + rest)[1..] == rest;
  }

  /** The `k`-th result is the `k`-th test judged on the `k`-th reply. */
  lemma JudgedAt(tests: seq<TestCase>, i: nat, replies: seq<ExecReply>, k: nat)
    requires i + |replies| == |tests| && k < |replies|
    ensures Judged(tests, i, replies)[k]
      == Judge(i + k + 1, tests[i + k], replies[k].exitCode, replies[k].out, replies[k].err)
  {
    assert tests[i..][k] == tests[i + k];
  }

  // ----------------------------------------------------------------- batch

  /**
   * A batch's returned dict, given the exit codes and streams its tests'
   * runs ended with: each result is its test judged on its own reply, and
   * the verdict, exit code and error agree with the results.
   */
  predicate BatchReport(e: ExecResult, tests: seq<TestCase>, replies: seq<ExecReply>)
  {
    && |replies| == |tests|
    && e.testResults == Some(Judged(tests, 0, replies))
    && ResultsMatch(e.testResults.value, tests, |tests|)
    && JudgedOn(e.testResults.value, tests, replies)
    && var results := e.testResults.value;
    && e.stdout == Transcript(results)
    && (e.verdict == Some(Accepted) <==> AllPassed(results))
    && (e.verdict == Some(WrongAnswer) <==> !AllPassed(results))
    && (e.exitCode == 0 <==> AllPassed(results))
    && (e.exitCode == 1 <==> !AllPassed(results))
    && (AllPassed(results) ==> e.stderr == "")
    && (!AllPassed(results) ==> e.stderr == FirstErrorOf(replies))
  }

  /**
   * Each result keeps its run's exit code, shows its stripped output with
   * any error output appended, and passed exactly when the run exited with 0
   * and printed the expected output up to padding.
   */
  predicate JudgedOn(results: seq<TestResult>, tests: seq<TestCase>, replies: seq<ExecReply>)
    requires |results| == |tests| == |replies|
  {
    forall k :: 0 <= k < |tests| ==>
      && (results[k].passed <==> replies[k].exitCode == 0 && Strip(replies[k].out) == Strip(tests[k].output))
      && results[k].exitCode == replies[k].exitCode
      && results[k].actualOutput == Annotate(Strip(replies[k].out), replies[k].err)
  }

  /** The results judged on the replies belong to their tests and follow the pass rule. */
  lemma JudgedFacts(tests: seq<TestCase>, replies: seq<ExecReply>)
    requires |replies| == |tests|
    ensures ResultsMatch(Judged(tests, 0, replies), tests, |tests|)
    ensures JudgedOn(Judged(tests, 0, replies), tests, replies)
  {
    var results := Judged(tests, 0, replies);
    forall k | 0 <= k < |tests|
      ensures results[k].testIndex == k + 1 && results[k].input == tests[k].input
      ensures results[k].expectedOutput == Strip(tests[k].output)
      ensures results[k].passed <==> replies[k].exitCode == 0 && Strip(replies[k].out) == Strip(tests[k].output)
      ensures results[k].exitCode == replies[k].exitCode
      ensures results[k].actualOutput == Annotate(Strip(replies[k].out), replies[k].err)
    {
      JudgedAt(tests, 0, replies, k);
      PassRule(k + 1, tests[k], replies[k].exitCode, replies[k].out, replies[k].err, replies[k].err);
    }
  }

  /** The summary of the results judged on `replies`, with the first error they wrote. */
  lemma BatchResultReports(tests: seq<TestCase>, replies: seq<ExecReply>)
    requires |replies| == |tests|
    ensures BatchReport(BatchResult(Judged(tests, 0, replies), FirstErrorOf(replies)), tests, replies)
  {
    JudgedFacts(tests, replies);
    SummaryRules(Judged(tests, 0, replies), FirstErrorOf(replies));
  }

  /** The calls the build step makes: none for Python, one `exec_run` otherwise. */
  function BuildCalls(l: Language): nat
  {
    if l == Python then 0 else 1
  }

  /** Calls before the first test in batch mode: create, start, archive, then the build. */
  function TestsStart(l: Language): nat
  {
    3 + BuildCalls(l)
  }

  /** Building and then running every test reports each test on the reply to its own `exec_run`, when neither raises. */
  lemma BuildAndTestReports(s: seq<Reply>, l: Language, main: string, tests: seq<TestCase>, timeout: int)
    ensures var r := BuildAndTest(s, l, main, tests, timeout);
      r.value.Ok? ==>
        && TestsRun(Drop(s, BuildCalls(l)), |tests|, timeout)
        && BatchReport(r.value.value, tests, TestReplies(Drop(s, BuildCalls(l)), |tests|, timeout))
  {
    var build := Build(s, l, main, timeout);
    if build.value.Ok? {
      var run := TestsFrom(build.script, RunnerCommand(l, main), tests, 0, timeout, [], "");
      TestsFromJudgesReplies(build.script, RunnerCommand(l, main), tests, 0, timeout, [], "");
      if run.value.Ok? {
        var replies := TestReplies(build.script, |tests|, timeout);
        assert [] + Judged(tests, 0, replies) == Judged(tests, 0, replies);
        BatchResultReports(tests, replies);
      }
    }
  }

  /** The batch mode reports each test on the reply its `exec_run` got, after the calls that set the container up. */
  lemma BatchReports(s: seq<Reply>, l: Language, main: string, tests: seq<TestCase>, timeout: int)
    ensures var r := Batch(s, l, main, tests, timeout);
      r.value.Ok? ==>
        && TestsRun(Drop(s, TestsStart(l)), |tests|, timeout)
        && BatchReport(r.value.value, tests, TestReplies(Drop(s, TestsStart(l)), |tests|, timeout))
  {
    var create := CallSpec(s, Create(CreateSpec(l, KeepAlive)));
    if create.reply.raised.None? {
      var start := CallSpec(create.rest, Start);
      var put := CallSpec(start.rest, PutArchive);
      if start.reply.raised.None? && put.reply.raised.None? {
        assert put.rest == Drop(s, 3) by {
          NextIsFirst(s);
          NextIsFirst(create.rest);
          NextIsFirst(start.rest);
          DropDrop(s, 1, 1);
          DropDrop(s, 2, 1);
        }
        DropDrop(s, 3, BuildCalls(l));
        BuildAndTestReports(put.rest, l, main, tests, timeout);
        assert BatchBody(create.rest, l, main, tests, timeout).value == BuildAndTest(put.rest, l, main, tests, timeout).value;
      }
    }
  }

  /** Calls before the first test of a request with tests: the workspace, one write per file, then the batch set-up. */
  function RequestTestsStart(q: Request): nat
  {
    match Resolve(q.language, Keys(q.files))
    case None => 0
    case Some(res) =>
      match FromName(res.language)
      case None => 0
      case Some(l) => 1 + |q.files| + TestsStart(l)
  }

  /** Writing the files takes one reply per file written. */
  lemma {:induction false} WritesTakeOneReplyEach(s: seq<Reply>, files: seq<(string, string)>, i: nat)
    requires i <= |files|
    ensures var w := WriteFrom(s, files, i); w.script == Drop(s, |w.trace|)
    decreases |files| - i
  {
    if i < |files| {
      var c := CallSpec(s, WriteFile(files[i].0, files[i].1));
      NextIsFirst(s);
      if c.reply.raised.None? {
        WritesTakeOneReplyEach(c.rest, files, i + 1);
        DropDrop(s, 1, |WriteFrom(c.rest, files, i + 1).trace|);
      }
    }
  }

  /** A request with tests that returns reports every test, in order, on the reply to its own `exec_run`. */
  lemma BatchRequestReports(s: seq<Reply>, q: Request)
    requires q.testCases != []
    ensures var r := Execute(s, q);
      r.value.Returned? ==>
        && TestsRun(Drop(s, RequestTestsStart(q)), |q.testCases|, q.timeout)
        && BatchReport(r.value.result, q.testCases, TestReplies(Drop(s, RequestTestsStart(q)), |q.testCases|, q.timeout))
  {
    var mk := CallSpec(s, MakeWorkspace);
    if mk.reply.raised.None? {
      var writes := WriteFrom(mk.rest, q.files, 0);
      if writes.value.None? {
        var res := Resolve(q.language, Keys(q.files));
        if res.Some? && FromName(res.value.language).Some? {
          var l := FromName(res.value.language).value;
          assert writes.script == Drop(s, 1 + |q.files|) by {
            NextIsFirst(s);
            WritesTakeOneReplyEach(mk.rest, q.files, 0);
            DropDrop(s, 1, |q.files|);
          }
          DropDrop(s, 1 + |q.files|, TestsStart(l));
          BatchReports(writes.script, l, res.value.main, q.testCases, q.timeout);
        }
      }
    }
  }

  /**
   * A test that overruns its deadline does not end the batch: it is recorded
   * as failed with exit code -1 and the loop goes on with the next test.
   */
  lemma TimedOutTestContinues(s: seq<Reply>, runner: string, tests: seq<TestCase>, i: nat, timeout: int,
                              results: seq<TestResult>, first: string)
    requires ResultsMatch(results, tests, i) && i < |tests|
    requires s != [] && s[0].raised.Some? && s[0].raised.value.TimeoutErr?
    ensures var timedOut := Judge(i + 1, tests[i], -1, "", TimeoutMessage(timeout));
      && !timedOut.passed && timedOut.exitCode == -1
      && ResultsMatch(results + [timedOut], tests, i + 1)
      && TestsFrom(s, runner, tests, i, timeout, results, first)
         == var rest := TestsFrom(s[1..], runner, tests, i + 1, timeout, results + [timedOut], FirstError(first, TimeoutMessage(timeout)));
            Run(rest.script, [Event(Exec(TestCommand(tests[i].input, runner), timeout), false)] + rest.trace, rest.value)
  {
    TestsFromStep(s, runner, tests, i, timeout, results, first, ExecReply(-1, "", TimeoutMessage(timeout)));
  }

  /**
   * The build's exit code and output are never looked at: a failed
   * compilation still runs every test. Two scripts that differ only in what
   * the build reported give the same calls and the same result.
   */
  lemma BuildOutputIgnored(s: seq<Reply>, build1: Reply, build2: Reply, l: Language, main: string, tests: seq<TestCase>, timeout: int)
    requires l != Python
    requires build1.raised.None? && build2.raised.None? && build1.exitCode.Some? && build2.exitCode.Some?
    ensures BuildAndTest([build1] + s, l, main, tests, timeout) == BuildAndTest([build2] + s, l, main, tests, timeout)
  {
    assert ([build1] + s)[1..] == s;
    assert ([build2] + s)[1..] == s;
  }
}
