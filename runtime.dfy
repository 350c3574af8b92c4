/**
 * The container runtime and the workspace directory as `execute_code`
 * (executor/app/docker_executor.py) sees them: calls that either succeed or
 * raise. The daemon's behaviour is not modelled; instead a run is fed a
 * script of replies, one per call, and records the calls it made. A property
 * proved for every script holds whatever the daemon does.
 */
module Runtime {
  import opened Wrappers
  import opened Commands

  /** What a runtime call can raise, grouped the way the `except` clauses of the source tell them apart. */
  datatype Error =
    | TimeoutErr(msg: string)
      // `docker.errors.ContainerError`, with the attributes the source reads
    | ContainerErr(stdout: string, stderr: string, exitStatus: int, msg: string)
    | OtherErr(msg: string)

  /**
   * The reply to one call: an exception, or the data the call returns (the
   * exit code of an `exec_run` or of the container after `reload`, and the
   * decoded output streams).
   */
  datatype Reply = Reply(raised: Option<Error>, exitCode: Option<int>, out: string, err: string)

  /** The reply of a call that the script no longer covers: success with nothing to report. */
  const Quiet := Reply(None, Some(0), "", "")

  datatype Stream = StdOut | StdErr

  /** The calls of `execute_code` on the file system and on the container runtime. */
  datatype Op =
    | MakeWorkspace                            // os.makedirs of the temporary directory
    | WriteFile(path: string, content: string) // writing one submitted file
    | RemoveWorkspace                          // shutil.rmtree(..., ignore_errors=True)
    | Create(spec: ContainerSpec)
    | PutArchive
    | Start
    | Wait(timeout: int)
    | Stop
    | Logs(stream: Stream)
    | Reload
    | Exec(command: string, timeout: int)      // _exec_in_container
    | Remove                                   // container.remove(force=True)

  /** A call as recorded: the operation and whether it returned normally. */
  datatype Event = Event(op: Op, ok: bool)

  /** The next reply of a script, and what remains of it. */
  function Next(script: seq<Reply>): (r: (Reply, seq<Reply>))
    ensures script != [] ==> r == (script[0], script[1..])
    ensures script == [] ==> r == (Quiet, [])
  {
    if script == [] then (Quiet, []) else (script[0], script[1..])
  }

  /** The script after `n` calls: each call takes one reply, and calls past its end take none. */
  function Drop(script: seq<Reply>, n: nat): (r: seq<Reply>)
    ensures n <= |script| ==> r == script[n..]
    ensures n >= |script| ==> r == []
  {
    if n <= |script| then script[n..] else []
  }

  /** The reply the `j`-th call from now receives. */
  function NthReply(script: seq<Reply>, j: nat): Reply
  {
    if j < |script| then script[j] else Quiet
  }

  /** `Next` hands out the replies in order. */
  lemma NextIsFirst(script: seq<Reply>)
    ensures Next(script) == (NthReply(script, 0), Drop(script, 1))
  {
  }

  /** After `m` calls, the `j`-th next reply is the `m + j`-th of the whole script. */
  lemma DropNth(script: seq<Reply>, m: nat, j: nat)
    ensures NthReply(Drop(script, m), j) == NthReply(script, m + j)
  {
  }

  lemma DropDrop(script: seq<Reply>, a: nat, b: nat)
    ensures Drop(Drop(script, a), b) == Drop(script, a + b)
  {
    if a + b <= |script| {
      assert script[a..][b..] == script[a + b..];
    }
  }

  /** One call made on a script: the reply it gets, the replies left, and the record of the call. */
  datatype Called = Called(reply: Reply, rest: seq<Reply>, event: Event)

  function CallSpec(script: seq<Reply>, op: Op): (c: Called)
    ensures c.event == Event(op, c.reply.raised.None?)
    ensures (c.reply, c.rest) == Next(script)
  {
    var n := Next(script);
    Called(n.0, n.1, Event(op, n.0.raised.None?))
  }

  /** The calls that act on a container. */
  predicate ContainerOp(op: Op)
  {
    !(op.MakeWorkspace? || op.WriteFile? || op.RemoveWorkspace?)
  }

  /** The client of the container runtime, with the replies still to come and the calls made so far. */
  class ContainerClient {
    var script: seq<Reply>
    var log: seq<Event>

    constructor(script: seq<Reply>)
      ensures this.script == script && log == []
    {
      this.script := script;
      log := [];
    }

    /** Make one call: take the next reply and record the call with its outcome. */
    method Call(op: Op) returns (r: Reply)
      modifies this
      ensures var c := CallSpec(old(script), op);
        r == c.reply && script == c.rest && log == old(log) + [c.event]
    {
      var n := Next(script);
      r := n.0;
      script := n.1;
      log := log + [Event(op, r.raised.None?)];
    }

    /** Record a call that cannot fail and takes no reply. */
    method Record(op: Op)
      modifies this
      ensures script == old(script)
      ensures log == old(log) + [Event(op, true)]
    {
      log := log + [Event(op, true)];
    }
  }
}
