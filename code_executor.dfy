/**
 * `CodeExecutor.execute` (ml/app/services/code_executor.py): runs one Python
 * program once per input, feeding the input line by line through a replaced
 * `input()`, and collects one result per input, in order.
 *
 * `exec` is not modelled. An interpreter is a function from the program and
 * the lines it has been given so far to what the program does next: ask for
 * another line, or finish with an outcome. `fuel` bounds the number of lines
 * a program may ask for; a program that asks for more is treated like one
 * that never returns.
 */
module CodeExecutor {
  import opened Wrappers
  import opened PyText

  /** What `stdout_capture.getvalue()` gives after the run: the text, or the exception it raises. */
  datatype Capture = Readable(text: string) | Unreadable(message: string)

  /**
   * How `exec(code, exec_globals)` ends: it returns, or raises an `Exception`
   * (reported by its traceback), or raises something that is not an
   * `Exception` (`SystemExit`, `KeyboardInterrupt`), which no clause catches.
   */
  datatype ExecOutcome =
    | Finished(captured: Capture)
    | Raised(traceback: string, captured: Capture)
    | Escaped

  datatype Action = ReadLine | Finish(outcome: ExecOutcome)

  type Interpreter = (string, seq<string>) -> Action

  /** One entry of the returned list. */
  datatype RunResult = RunResult(input: string, output: string, error: string, success: bool)

  /** `inp.split('\n') if inp else []`. */
  function InputLines(inp: string): (lines: seq<string>)
    ensures inp == [] <==> lines == []
    ensures forall k :: 0 <= k < |lines| ==> NoChar(lines[k], '\n')
  {
    if inp == [] then [] else SplitOnCharLacksChar(inp, '\n'); Split(inp, "\n")
  }

  /** The lines are the input cut at its newlines: joining them back gives the input. */
  lemma InputLinesJoin(inp: string)
    ensures Join("\n", InputLines(inp)) == inp
  {
    if inp != [] {
      JoinSplit(inp, "\n");
    }
  }

  /** What the `k`-th call of `input()` returns (counting from 0): the `k`-th line, then `''` forever. */
  function FedLine(lines: seq<string>, k: nat): (line: string)
    ensures k < |lines| ==> line == lines[k]
    ensures k >= |lines| ==> line == ""
  {
    if k < |lines| then lines[k] else ""
  }

  /** The first `n` answers of `input()`. */
  function Fed(lines: seq<string>, n: nat): (got: seq<string>)
    ensures |got| == n
    ensures forall k :: 0 <= k < n ==> got[k] == FedLine(lines, k)
  {
    seq(n, k requires 0 <= k < n => FedLine(lines, k))
  }

  /** `custom_input` with its counter `input_index[0]`. */
  class LineFeeder {
    const lines: seq<string>
    var index: nat
    /** The answers given so far. */
    ghost var served: seq<string>

    ghost predicate Valid()
      reads this
    {
      index == (if |served| < |lines| then |served| else |lines|) && served == Fed(lines, |served|)
    }

    constructor(inp: string)
      ensures lines == InputLines(inp) && served == [] && Valid()
    {
      lines := InputLines(inp);
      index := 0;
      served := [];
    }

    /** `custom_input(prompt)`: the next line while there is one, `''` afterwards; the prompt is ignored. */
    method Input() returns (line: string)
      requires Valid()
      modifies this
      ensures Valid() && served == old(served) + [line]
      ensures line == FedLine(lines, |old(served)|)
    {
      if index < |lines| {
        line := lines[index];
        index := index + 1;
      } else {
        line := "";
      }
      served := served + [line];
      assert served == Fed(lines, |served|) by {
        forall k | 0 <= k < |served|
          ensures served[k] == FedLine(lines, k)
        {
          if k < |old(served)| {
            assert served[k] == old(served)[k];
          }
        }
      }
    }
  }

  /** The program run on the lines it has been given: `None` when it asks for more than `fuel` further lines. */
  function Drive(run: Interpreter, code: string, lines: seq<string>, got: seq<string>, fuel: nat): (r: Option<ExecOutcome>)
    decreases fuel
  {
    match run(code, got)
    case Finish(o) => Some(o)
    case ReadLine =>
      if fuel == 0 then None else Drive(run, code, lines, got + [FedLine(lines, |got|)], fuel - 1)
  }

  /** The result entry for an input, from how its run ended; `None` when the exception escapes. */
  function ResultOf(inp: string, o: ExecOutcome): (r: Option<RunResult>)
    ensures r.None? <==> o.Escaped?
    ensures r.Some? ==> r.value.input == inp
    ensures r.Some? ==> (r.value.success <==> o.Finished? && o.captured.Readable?)
    ensures r.Some? && r.value.success ==> r.value.error == ""
    ensures r.Some? && o.captured.Unreadable? ==> r.value == RunResult(inp, "", o.captured.message, false)
    ensures r.Some? && o.captured.Readable? ==> r.value.output == Strip(o.captured.text)
    ensures o.Raised? && o.captured.Readable? ==> r.value.error == o.traceback
  {
    match o
    case Escaped => None
    case Finished(Readable(text)) => Some(RunResult(inp, Strip(text), "", true))
    case Raised(tb, Readable(text)) => Some(RunResult(inp, Strip(text), tb, false))
    case Finished(Unreadable(m)) => Some(RunResult(inp, "", m, false))
    case Raised(_, Unreadable(m)) => Some(RunResult(inp, "", m, false))
  }

  /** One input, run with fresh globals, a fresh output buffer and a fresh line counter. */
  function RunOn(run: Interpreter, code: string, inp: string, fuel: nat): Option<RunResult>
  {
    match Drive(run, code, InputLines(inp), [], fuel)
    case None => None
    case Some(o) => ResultOf(inp, o)
  }

  /** `execute`: one result per input, or `None` when some input's run never returns normally. */
  function ExecuteSpec(run: Interpreter, code: string, inputs: seq<string>, fuel: nat): (r: Option<seq<RunResult>>)
    ensures r.Some? ==> |r.value| == |inputs|
    ensures r.Some? ==> forall i :: 0 <= i < |inputs| ==> RunOn(run, code, inputs[i], fuel) == Some(r.value[i])
    decreases |inputs|
  {
    if inputs == [] then Some([])
    else
      match RunOn(run, code, inputs[0], fuel)
      case None => None
      case Some(first) =>
        match ExecuteSpec(run, code, inputs[1..], fuel)
        case None => None
        case Some(rest) =>
          assert forall i :: 1 <= i < |inputs| ==> inputs[i] == inputs[1..][i - 1];
          Some([first] + rest)
  }

  /** Runs the program on one input: every `input()` call is answered by the feeder. */
  method RunProgram(run: Interpreter, code: string, feeder: LineFeeder, fuel: nat) returns (o: Option<ExecOutcome>)
    requires feeder.Valid() && feeder.served == []
    modifies feeder
    ensures o == Drive(run, code, feeder.lines, [], fuel)
  {
    var got: seq<string> := [];
    var left := fuel;
    var action := run(code, got);
    while action.ReadLine? && left > 0
      invariant feeder.Valid() && feeder.served == got
      invariant action == run(code, got)
      invariant Drive(run, code, feeder.lines, [], fuel) == Drive(run, code, feeder.lines, got, left)
      decreases left
    {
      var line := feeder.Input();
      got := got + [line];
      left := left - 1;
      action := run(code, got);
    }
    if action.ReadLine? {
      return None;
    }
    return Some(action.outcome);
  }

  /** `CodeExecutor.execute`: the `for` loop appending one result per input. */
  method Execute(run: Interpreter, code: string, inputs: seq<string>, fuel: nat) returns (results: Option<seq<RunResult>>)
    ensures results == ExecuteSpec(run, code, inputs, fuel)
  {
    var collected: seq<RunResult> := [];
    for i := 0 to |inputs|
      invariant |collected| == i
      invariant forall k :: 0 <= k < i ==> RunOn(run, code, inputs[k], fuel) == Some(collected[k])
    {
      var feeder := new LineFeeder(inputs[i]);
      var outcome := RunProgram(run, code, feeder, fuel);
      if outcome.None? || outcome.value.Escaped? {
        ExecuteFailsIffARunFails(run, code, inputs, fuel);
        return None;
      }
      var result := ResultOf(inputs[i], outcome.value).value;
      collected := collected + [result];
    }
    ExecuteCollects(run, code, inputs, fuel, collected);
    results := Some(collected);
  }

  /** `execute` raises exactly when the program lets an exception escape on one of the inputs. */
  lemma {:induction false} ExecuteFailsIffARunFails(run: Interpreter, code: string, inputs: seq<string>, fuel: nat)
    ensures ExecuteSpec(run, code, inputs, fuel).None?
      <==> exists i :: 0 <= i < |inputs| && RunOn(run, code, inputs[i], fuel).None?
    decreases |inputs|
  {
    if inputs != [] && RunOn(run, code, inputs[0], fuel).Some? {
      var tail := inputs[1..];
      ExecuteFailsIffARunFails(run, code, tail, fuel);
      if ExecuteSpec(run, code, tail, fuel).None? {
        var j :| 0 <= j < |tail| && RunOn(run, code, tail[j], fuel).None?;
        assert inputs[j + 1] == tail[j];
      }
    }
  }

  lemma {:induction false} ExecuteCollects(run: Interpreter, code: string, inputs: seq<string>, fuel: nat, collected: seq<RunResult>)
    requires |collected| == |inputs|
    requires forall k :: 0 <= k < |inputs| ==> RunOn(run, code, inputs[k], fuel) == Some(collected[k])
    ensures ExecuteSpec(run, code, inputs, fuel) == Some(collected)
    decreases |inputs|
  {
    if inputs != [] {
      var tail, rest := inputs[1..], collected[1..];
      forall k | 0 <= k < |tail|
        ensures RunOn(run, code, tail[k], fuel) == Some(rest[k])
      {
        assert tail[k] == inputs[k + 1] && rest[k] == collected[k + 1];
      }
      ExecuteCollects(run, code, tail, fuel, rest);
      var first := collected[0];
      assert RunOn(run, code, inputs[0], fuel) == Some(first);
      assert ExecuteSpec(run, code, inputs, fuel) == Some([first] + rest);
      assert collected == [first] + rest;
    }
  }

  /** The run of a program that is given the `n`-th answer of the feed whenever it asks for a line. */
  function DriveFed(run: Interpreter, code: string, lines: seq<string>, n: nat, fuel: nat): Option<ExecOutcome>
    decreases fuel
  {
    match run(code, Fed(lines, n))
    case Finish(o) => Some(o)
    case ReadLine => if fuel == 0 then None else DriveFed(run, code, lines, n + 1, fuel - 1)
  }

  /**
   * The lines a program receives: what it has been given after `n` calls of
   * `input()` is always the first `n` answers of the feed (the lines of its
   * input, in order, then `''`).
   */
  lemma {:induction false} DriveFeedsLines(run: Interpreter, code: string, lines: seq<string>, n: nat, fuel: nat)
    ensures Drive(run, code, lines, Fed(lines, n), fuel) == DriveFed(run, code, lines, n, fuel)
    decreases fuel
  {
    var got := Fed(lines, n);
    if run(code, got).ReadLine? && fuel > 0 {
      assert got + [FedLine(lines, |got|)] == Fed(lines, n + 1);
      DriveFeedsLines(run, code, lines, n + 1, fuel - 1);
    }
  }

  /**
   * Results do not depend on earlier inputs: the result at a position is the
   * result its input gets on its own, so two lists with the same input at
   * some positions agree there.
   */
  lemma IsolatedInputs(run: Interpreter, code: string, a: seq<string>, b: seq<string>, i: nat, j: nat, fuel: nat)
    requires i < |a| && j < |b| && a[i] == b[j]
    requires ExecuteSpec(run, code, a, fuel).Some? && ExecuteSpec(run, code, b, fuel).Some?
    ensures ExecuteSpec(run, code, a, fuel).value[i] == ExecuteSpec(run, code, b, fuel).value[j]
  {
    assert RunOn(run, code, a[i], fuel) == Some(ExecuteSpec(run, code, a, fuel).value[i]);
    assert RunOn(run, code, b[j], fuel) == Some(ExecuteSpec(run, code, b, fuel).value[j]);
  }

  /** One result per input, in order, each carrying its input. */
  lemma ResultShape(run: Interpreter, code: string, inputs: seq<string>, fuel: nat)
    requires ExecuteSpec(run, code, inputs, fuel).Some?
    ensures var r := ExecuteSpec(run, code, inputs, fuel).value;
      |r| == |inputs| && forall i :: 0 <= i < |inputs| ==> r[i].input == inputs[i]
  {
    var r := ExecuteSpec(run, code, inputs, fuel).value;
    forall i | 0 <= i < |inputs|
      ensures r[i].input == inputs[i]
    {
      assert RunOn(run, code, inputs[i], fuel) == Some(r[i]);
      var o := Drive(run, code, InputLines(inputs[i]), [], fuel);
      assert ResultOf(inputs[i], o.value) == Some(r[i]);
    }
  }
}
