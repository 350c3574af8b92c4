/**
 * How batch mode of `execute_code` (executor/app/docker_executor.py) judges
 * one test and sums the tests up: the pass rule, the error annotation of the
 * reported output, the first error kept for `stderr`, and the verdict, exit
 * code and transcript of the whole run.
 */
module Verdict {
  import opened PyText

  /** A test case as the request carries it: the input fed to the program and the expected output. */
  datatype TestCase = TestCase(input: string, output: string)

  /** One entry of `test_results` (its duration is left out). */
  datatype TestResult = TestResult(
    testIndex: int,
    input: string,
    expectedOutput: string,
    actualOutput: string,
    passed: bool,
    exitCode: int)

  const ErrorLabel := "Ошибка: "
  const Accepted := "ACCEPTED"
  const WrongAnswer := "WRONG ANSWER"

  /**
   * `actual_output_with_error`: the stripped output, followed on a new line
   * by the stripped error text when the program wrote a non-blank one.
   */
  function Annotate(actual: string, err: string): (r: string)
    ensures IsBlank(err) ==> r == actual
    ensures !IsBlank(err) && actual == [] ==> r == ErrorLabel + Strip(err)
    ensures !IsBlank(err) && actual != [] ==> r == actual + "\n" + ErrorLabel + Strip(err)
  {
    if IsBlank(err) then actual
    else if actual != [] then actual + "\n" + ErrorLabel + Strip(err)
    else ErrorLabel + Strip(err)
  }

  /** The result of the test at (one-based) `index`, from the exit code and streams of its run. */
  function Judge(index: int, tc: TestCase, exit: int, out: string, err: string): TestResult
  {
    var expected := Strip(tc.output);
    var actual := Strip(out);
    TestResult(index, tc.input, expected, Annotate(actual, err), exit == 0 && actual == expected, exit)
  }

  /** `first_error_output` after a test that wrote `err`: set once, by the first non-blank error. */
  function FirstError(first: string, err: string): (r: string)
    ensures first != [] ==> r == first
    ensures first == [] ==> (r == [] <==> IsBlank(err))
    ensures first == [] && !IsBlank(err) ==> r == Strip(err)
    ensures IsStripped(first) ==> IsStripped(r)
  {
    if first == [] && !IsBlank(err) then Strip(err) else first
  }

  /**
   * The pass rule: a test passes exactly when its run exited with 0 and its
   * stripped output equals its stripped expected output; whether the error
   * stream was written to does not matter.
   */
  lemma PassRule(index: int, tc: TestCase, exit: int, out: string, err: string, err2: string)
    ensures Judge(index, tc, exit, out, err).passed <==> (exit == 0 && Strip(out) == Strip(tc.output))
    ensures Judge(index, tc, exit, out, err).passed == Judge(index, tc, exit, out, err2).passed
    ensures Judge(index, tc, exit, out, err).expectedOutput == Strip(tc.output)
    ensures Judge(index, tc, exit, out, err).input == tc.input
  {
  }

  /**
   * A test whose run overran the deadline is reported as failed with exit
   * code -1 and the timeout note as its whole output.
   */
  lemma TimedOutTest(index: int, tc: TestCase, message: string)
    requires message != [] && IsStripped(message)
    ensures var r := Judge(index, tc, -1, "", message);
      !r.passed && r.exitCode == -1 && r.actualOutput == ErrorLabel + message
  {
    StripOfStripped(message);
  }

  /** Padding on either end of either stream changes nothing in the verdict of a test. */
  lemma JudgeIgnoresPadding(index: int, tc: TestCase, exit: int, out: string, err: string)
    ensures Judge(index, tc, exit, Strip(out), Strip(err)) == Judge(index, tc, exit, out, err)
  {
    StripIdempotent(out);
    StripIdempotent(err);
    assert IsBlank(Strip(err)) <==> IsBlank(err);
  }

  function PassedCount(results: seq<TestResult>): (n: nat)
    ensures n <= |results|
  {
    if results == [] then 0 else (if results[0].passed then 1 else 0) + PassedCount(results[1..])
  }

  predicate AllPassed(results: seq<TestResult>)
  {
    forall k :: 0 <= k < |results| ==> results[k].passed
  }

  /** `passed_count == total_count` holds exactly when every test passed. */
  lemma {:induction false} CountAllPassed(results: seq<TestResult>)
    ensures PassedCount(results) == |results| <==> AllPassed(results)
  {
    if results != [] {
      CountAllPassed(results[1..]);
      assert forall k :: 1 <= k < |results| ==> results[k] == results[1..][k - 1];
    }
  }

  function StatusIcon(passed: bool): string
  {
    if passed then "✅" else "❌"
  }

  /** One transcript line: `{icon} Тест {index}: {actual} (ожидалось: {expected})`. */
  function TestLine(r: TestResult): string
  {
    StatusIcon(r.passed) + " Тест " + IntToString(r.testIndex) + ": " + r.actualOutput + " (ожидалось: " + r.expectedOutput + ")"
  }

  function TestLines(results: seq<TestResult>): (lines: seq<string>)
    ensures |lines| == |results|
    ensures forall k :: 0 <= k < |results| ==> lines[k] == TestLine(results[k])
  {
    seq(|results|, k requires 0 <= k < |results| => TestLine(results[k]))
  }

  function VerdictOf(results: seq<TestResult>): string
  {
    if PassedCount(results) == |results| then Accepted else WrongAnswer
  }

  /** `Вердикт: {verdict}`. */
  function VerdictLine(results: seq<TestResult>): string
  {
    "Вердикт: " + VerdictOf(results)
  }

  /** `Пройдено тестов: {passed}/{total}`. */
  function CountLine(results: seq<TestResult>): string
  {
    "Пройдено тестов: " + NatToString(PassedCount(results)) + "/" + NatToString(|results|)
  }

  function HeaderLines(results: seq<TestResult>): seq<string>
  {
    [VerdictLine(results), CountLine(results), ""]
  }

  /** `'\n'.join(stdout_lines)`: the verdict line, the count line, a blank line, then one line per test. */
  function Transcript(results: seq<TestResult>): string
  {
    Join("\n", HeaderLines(results) + TestLines(results))
  }

  /** The outcome fields of a batch run: stdout, stderr and exit code. */
  datatype Summary = Summary(stdout: string, stderr: string, exitCode: int, verdict: string)

  function Summarise(results: seq<TestResult>, firstError: string): Summary
  {
    var all := PassedCount(results) == |results|;
    Summary(Transcript(results), if !all && firstError != [] then firstError else "", if all then 0 else 1, VerdictOf(results))
  }

  /**
   * The verdict is ACCEPTED and the exit code 0 exactly when every test
   * passed; otherwise WRONG ANSWER, exit code 1 and the first error (if any)
   * as stderr. An accepted run reports no error even if a test wrote one.
   */
  lemma SummaryRules(results: seq<TestResult>, firstError: string)
    ensures var s := Summarise(results, firstError);
      && (s.verdict == Accepted <==> AllPassed(results))
      && (s.verdict == WrongAnswer <==> !AllPassed(results))
      && (s.exitCode == 0 <==> AllPassed(results))
      && (s.exitCode == 1 <==> !AllPassed(results))
      && (AllPassed(results) ==> s.stderr == "")
      && (!AllPassed(results) ==> s.stderr == firstError)
  {
    CountAllPassed(results);
  }

  lemma JoinHeader(sep: string, a: string, b: string, lines: seq<string>)
    ensures Join(sep, [a, b, ""] + lines) == a + sep + b + sep + (if lines == [] then "" else sep + Join(sep, lines))
  {
    var rest := [""] + lines;
    assert [a, b, ""] + lines == [a] + ([b] + rest);
    JoinCons(sep, a, [b] + rest);
    JoinCons(sep, b, rest);
    if lines != [] {
      JoinCons(sep, "", lines);
    }
  }

  /**
   * The transcript's layout: the verdict line and the count line, each
   * ending in a newline, then (when there are tests) an empty line followed
   * by the test lines separated by newlines.
   */
  lemma TranscriptLayout(results: seq<TestResult>)
    ensures var lines := TestLines(results);
      Transcript(results) == VerdictLine(results) + "\n" + CountLine(results) + "\n"
        + (if lines == [] then "" else "\n" + Join("\n", lines))
  {
    JoinHeader("\n", VerdictLine(results), CountLine(results), TestLines(results));
  }
}
