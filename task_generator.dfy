/**
 * The test-suite shaping of `TaskGenerator.generate_task`
 * (ml/app/services/task_generator.py): the preferred language, the hidden
 * inputs the model proposes (sanitised and padded to 18), the expected
 * outputs (from running the canonical Python solution, or from the model,
 * or empty), the split into 3 open examples and 15 hidden tests, and the
 * extraction of the solution's code from the model's reply.
 *
 * The model's replies enter as decoded JSON values (`None` when the call
 * raised); the canonical solution is run by the `CodeExecutor` model.
 */
module TaskGenerator {
  import opened Wrappers
  import opened PyText
  import opened JsonValue
  import opened CodeExecutor

  const TestCount := 18
  const OpenCount := 3
  const DefaultInput := "1\n1"
  const Fence := "```"

  // -------------------------------------------------------------- language

  const Supported: set<string> := {"python", "go", "java", "typescript"}

  /** `(language or 'python').lower()`, replaced by `'python'` when it is not supported. */
  function NormaliseLanguage(language: Option<string>): (r: string)
    ensures r in Supported
  {
    var preferred := Lower(if language.Some? && language.value != [] then language.value else "python");
    if preferred in Supported then preferred else "python"
  }

  /**
   * No language (or an empty one) means Python; a supported name is accepted
   * in any letter case; anything else falls back to Python.
   */
  lemma NormaliseLanguageRules(language: Option<string>)
    ensures language.None? || language == Some([]) ==> NormaliseLanguage(language) == "python"
    ensures language.Some? && language.value != [] && Lower(language.value) in Supported
      ==> NormaliseLanguage(language) == Lower(language.value)
    ensures language.Some? && language.value != [] && Lower(language.value) !in Supported
      ==> NormaliseLanguage(language) == "python"
  {
    LowerOfLowercase("python");
  }

  /** The result is its own lower case. */
  lemma NormalisedIsLower(s: string)
    ensures var r := NormaliseLanguage(Some(s)); Lower(r) == r && r != []
  {
    LowerOfLowercase("python");
    if s != [] {
      LowerIdempotent(s);
    }
  }

  /** Normalising is idempotent. */
  lemma NormaliseLanguageIdempotent(s: string)
    ensures NormaliseLanguage(Some(NormaliseLanguage(Some(s)))) == NormaliseLanguage(Some(s))
  {
    NormalisedIsLower(s);
  }

  /** Normalising ignores letter case. */
  lemma NormaliseLanguageIgnoresCase(s: string)
    ensures NormaliseLanguage(Some(Lower(s))) == NormaliseLanguage(Some(s))
  {
    LowerIdempotent(s);
  }

  /**
   * The solution stored with a generated task: the preferred language's solution
   * when there is one, else the Python one, else none.
   */
  function StoredSolution(preferred: string, python: string, other: string): (r: Option<string>)
    ensures r.Some? ==> r.value != [] && (r.value == python || (preferred != "python" && r.value == other))
    ensures r.None? <==> python == [] && (preferred == "python" || other == [])
    ensures preferred != "python" && other != [] ==> r == Some(other)
  {
    // canonical_solutions.get(preferred_language) or python_solution
    var fromDict := if preferred == "python" then python else other;
    var chosen := if fromDict != [] then fromDict else python;
    if chosen != [] then Some(chosen) else None
  }

  // ---------------------------------------------------------- hidden tests

  /** One item of the model's test list: a string is stripped, a dict with `input` gives `str(input)`, anything else is dropped. */
  function SanitisedItem(item: Json): (r: Option<string>)
    ensures item.JString? ==> r == Some(Strip(item.s))
    ensures HasKey(item, "input") ==> r == Some(PyStr(Get(item, "input")))
    ensures r.Some? <==> item.JString? || HasKey(item, "input")
  {
    if item.JString? then Some(Strip(item.s))
    else if HasKey(item, "input") then Some(PyStr(Get(item, "input")))
    else None
  }

  /** The items kept, in order. */
  function Sanitised(items: seq<Json>): (r: seq<string>)
    ensures |r| <= |items|
  {
    if items == [] then []
    else
      var last := SanitisedItem(items[|items| - 1]);
      Sanitised(items[..|items| - 1]) + (if last.Some? then [last.value] else [])
  }

  /** Sanitising works item by item: the result for a concatenation is the concatenation of the results. */
  lemma {:induction false} SanitisedAppend(a: seq<Json>, b: seq<Json>)
    ensures Sanitised(a + b) == Sanitised(a) + Sanitised(b)
    decreases |b|
  {
    if b == [] {
      assert a + b == a;
    } else {
      var init := b[..|b| - 1];
      assert (a + b)[..|a + b| - 1] == a + init;
      assert (a + b)[|a + b| - 1] == b[|b| - 1];
      SanitisedAppend(a, init);
    }
  }

  /** A list of strings is kept whole, every string stripped. */
  lemma {:induction false} SanitisedStrings(items: seq<Json>)
    requires forall i :: 0 <= i < |items| ==> items[i].JString?
    ensures |Sanitised(items)| == |items|
    ensures forall i :: 0 <= i < |items| ==> Sanitised(items)[i] == Strip(items[i].s)
    decreases |items|
  {
    if items != [] {
      var init, last := items[..|items| - 1], items[|items| - 1];
      assert forall i :: 0 <= i < |init| ==> init[i].JString? by {
        forall i | 0 <= i < |init|
          ensures init[i].JString?
        {
          assert init[i] == items[i];
        }
      }
      SanitisedStrings(init);
      assert SanitisedItem(last) == Some(Strip(last.s));
      assert items == init + [last];
      StrippedAppend(Sanitised(items), Sanitised(init), init, last);
    }
  }

  /** Appending one stripped string to the stripped strings of `init` strips `init + [last]` pointwise. */
  lemma StrippedAppend(r: seq<string>, before: seq<string>, init: seq<Json>, last: Json)
    requires last.JString? && forall i :: 0 <= i < |init| ==> init[i].JString?
    requires |before| == |init| && forall i :: 0 <= i < |init| ==> before[i] == Strip(init[i].s)
    requires r == before + [Strip(last.s)]
    ensures var items := init + [last];
      |r| == |items| && forall i :: 0 <= i < |items| ==> r[i] == Strip(items[i].s)
  {
    var items := init + [last];
    forall i | 0 <= i < |items|
      ensures r[i] == Strip(items[i].s)
    {
      if i < |init| {
        assert r[i] == before[i] && items[i] == init[i];
      }
    }
  }

  /**
   * `_generate_hidden_tests` after the model's reply: a list is sanitised; a
   * dict with `tests` has that value sanitised (iterating over a value that
   * is not iterable raises, giving `[]`); anything else, or a failed call,
   * gives `[]`.
   */
  function HiddenTests(reply: Option<Json>): (r: seq<string>)
    ensures reply.None? ==> r == []
    ensures reply.Some? && reply.value.JArray? ==> r == Sanitised(reply.value.items)
    ensures reply.Some? && HasKey(reply.value, "tests") ==>
      r == (if Iterate(Get(reply.value, "tests")).Some? then Sanitised(Iterate(Get(reply.value, "tests")).value) else [])
    ensures reply.Some? && !reply.value.JArray? && !HasKey(reply.value, "tests") ==> r == []
  {
    match reply
    case None => []
    case Some(v) =>
      if v.JArray? then Sanitised(v.items)
      else if HasKey(v, "tests") then
        match Iterate(Get(v, "tests"))
        case None => []
        case Some(items) => Sanitised(items)
      else []
  }

  /** A `{"tests": [...]}` wrapper is handled exactly like the bare list. */
  lemma TestsWrapperHandledAlike(v: Json, items: seq<Json>)
    requires HasKey(v, "tests") && Get(v, "tests") == JArray(items)
    ensures HiddenTests(Some(v)) == HiddenTests(Some(JArray(items)))
  {
  }

  /** The sanitising loop. */
  method SanitiseAll(items: seq<Json>) returns (sanitized: seq<string>)
    ensures sanitized == Sanitised(items)
  {
    sanitized := [];
    for i := 0 to |items|
      invariant sanitized == Sanitised(items[..i])
    {
      assert items[..i + 1][..i] == items[..i];
      var item := items[i];
      if item.JString? {
        sanitized := sanitized + [Strip(item.s)];
      } else if HasKey(item, "input") {
        sanitized := sanitized + [PyStr(Get(item, "input"))];
      }
    }
    assert items[..|items|] == items;
  }

  /** `_generate_hidden_tests`, from the model's reply on. */
  method GenerateHiddenTests(reply: Option<Json>) returns (sanitized: seq<string>)
    ensures sanitized == HiddenTests(reply)
  {
    if reply.None? {
      return [];
    }
    var tests := reply.value;
    if tests.JArray? {
      sanitized := SanitiseAll(tests.items);
    } else if HasKey(tests, "tests") {
      var items := Iterate(Get(tests, "tests"));
      if items.None? {
        return [];
      }
      sanitized := SanitiseAll(items.value);
    } else {
      sanitized := [];
    }
  }

  // --------------------------------------------------------------- padding

  /** What the padding extends with: the inputs themselves, or `"1\n1"` when there are none. */
  function Seed(inputs: seq<string>): (r: seq<string>)
    ensures r != []
  {
    if inputs == [] then [DefaultInput] else inputs
  }

  /** `s` written `m` times in a row. */
  function Repeat(s: seq<string>, m: nat): (r: seq<string>)
  {
    if m == 0 then [] else s + Repeat(s, m - 1)
  }

  lemma {:induction false} RepeatLength(s: seq<string>, m: nat)
    requires s != []
    ensures |Repeat(s, m)| >= m
  {
    if m > 0 {
      RepeatLength(s, m - 1);
    }
  }

  lemma {:induction false} RepeatAdd(s: seq<string>, a: nat, b: nat)
    ensures Repeat(s, a + b) == Repeat(s, a) + Repeat(s, b)
    decreases a
  {
    if a > 0 {
      RepeatAdd(s, a - 1, b);
      assert Repeat(s, a + b) == s + Repeat(s, a - 1 + b);
    }
  }

  /** Any long enough repetition of the seed has the same first 18 elements. */
  lemma RepeatPrefix(s: seq<string>, a: nat, b: nat)
    requires a <= b && |Repeat(s, a)| >= TestCount
    ensures |Repeat(s, b)| >= TestCount
    ensures Repeat(s, b)[..TestCount] == Repeat(s, a)[..TestCount]
  {
    RepeatAdd(s, a, b - a);
  }

  /** The padded hidden inputs: the seed repeated, cut at 18. */
  function PaddedInputs(inputs: seq<string>): (r: seq<string>)
    ensures |r| == TestCount
  {
    var seed := Seed(inputs);
    RepeatLength(seed, TestCount);
    Repeat(seed, TestCount)[..TestCount]
  }

  /**
   * The padding loop: while there are fewer than 18 inputs the list is
   * extended by itself (by `"1\n1"` while it is empty); then it is cut at 18.
   */
  method PadInputs(inputs: seq<string>) returns (padded: seq<string>)
    ensures padded == PaddedInputs(inputs)
  {
    ghost var seed := Seed(inputs);
    ghost var m: nat := if inputs == [] then 0 else 1;
    var list := inputs;
    while |list| < TestCount
      invariant list == Repeat(seed, m)
      invariant m <= 2 * TestCount
      invariant list == [] ==> inputs == [] && m == 0
      decreases TestCount - |list|
    {
      if list == [] {
        list := list + [DefaultInput];
        m := 1;
      } else {
        RepeatAdd(seed, m, m);
        list := list + list;
        m := m + m;
      }
      RepeatLength(seed, m);
    }
    if m <= TestCount {
      RepeatPrefix(seed, m, TestCount);
    } else {
      RepeatLength(seed, TestCount);
      RepeatPrefix(seed, TestCount, m);
    }
    padded := list[..TestCount];
  }

  lemma {:induction false} RepeatIndex(s: seq<string>, m: nat, k: nat)
    requires s != [] && |s| <= k < |Repeat(s, m)|
    ensures Repeat(s, m)[k] == Repeat(s, m)[k - |s|]
    decreases m
  {
    assert m > 0;
    if m > 1 {
      assert Repeat(s, m - 1) == s + Repeat(s, m - 2);
      if k - |s| >= |s| {
        RepeatIndex(s, m - 1, k - |s|);
      }
    }
  }

  /**
   * The padded inputs begin with the original ones (up to 18), all further
   * ones repeat the input as many places earlier as there were inputs, and
   * with no inputs all 18 are `"1\n1"`.
   */
  lemma PaddedInputsShape(inputs: seq<string>)
    ensures var r := PaddedInputs(inputs);
      && (forall k :: 0 <= k < |inputs| && k < TestCount ==> r[k] == inputs[k])
      && (inputs != [] ==> forall k :: |inputs| <= k < TestCount ==> r[k] == r[k - |inputs|])
      && (inputs == [] ==> forall k :: 0 <= k < TestCount ==> r[k] == DefaultInput)
  {
    var seed := Seed(inputs);
    RepeatLength(seed, TestCount);
    var full := Repeat(seed, TestCount);
    assert full == seed + Repeat(seed, TestCount - 1);
    forall k | |seed| <= k < TestCount
      ensures full[k] == full[k - |seed|]
    {
      RepeatIndex(seed, TestCount, k);
    }
    if inputs == [] {
      forall k | 0 <= k < TestCount
        ensures full[k] == DefaultInput
      {
        RepeatUniform(DefaultInput, TestCount, k);
      }
    }
  }

  lemma {:induction false} RepeatUniform(x: string, m: nat, k: nat)
    requires k < |Repeat([x], m)|
    ensures Repeat([x], m)[k] == x
    decreases m
  {
    if k > 0 {
      RepeatUniform(x, m - 1, k - 1);
    }
  }

  // -------------------------------------------------------- expected outputs

  /** A test as a generated task stores it. */
  datatype Case = Case(input: string, output: string)

  predicate AllSucceeded(results: seq<RunResult>)
  {
    forall i :: 0 <= i < |results| ==> results[i].success
  }

  function CanonicalCases(results: seq<RunResult>): (r: seq<Case>)
    ensures |r| == |results|
    ensures forall i :: 0 <= i < |results| ==> r[i] == Case(results[i].input, results[i].output)
  {
    seq(|results|, i requires 0 <= i < |results| => Case(results[i].input, results[i].output))
  }

  function BlankCases(inputs: seq<string>): (r: seq<Case>)
    ensures |r| == |inputs|
    ensures forall i :: 0 <= i < |inputs| ==> r[i] == Case(inputs[i], "")
  {
    seq(|inputs|, i requires 0 <= i < |inputs| => Case(inputs[i], ""))
  }

  /** The executor's results are adopted when there is a solution, one successful result per input. */
  predicate CanonicalUsable(solution: string, inputs: seq<string>, executed: seq<RunResult>)
  {
    solution != [] && executed != [] && |executed| == |inputs| && AllSucceeded(executed)
  }

  /** The tests before padding: canonical outputs, else the model's outputs, else empty outputs. */
  function ChooseCases(solution: string, inputs: seq<string>, executed: seq<RunResult>, fallback: seq<Case>): (r: seq<Case>)
    ensures r == CanonicalCases(executed) || r == fallback || r == BlankCases(inputs)
    ensures inputs != [] ==> r != []
  {
    var canonical := if CanonicalUsable(solution, inputs, executed) then CanonicalCases(executed) else [];
    var cases := if canonical == [] || |canonical| < |inputs| then fallback else canonical;
    if cases == [] then BlankCases(inputs) else cases
  }

  /** Which outputs are used, for each combination of what the solution and the model gave. */
  lemma ChooseCasesRules(solution: string, inputs: seq<string>, executed: seq<RunResult>, fallback: seq<Case>)
    ensures CanonicalUsable(solution, inputs, executed) ==> ChooseCases(solution, inputs, executed, fallback) == CanonicalCases(executed)
    ensures !CanonicalUsable(solution, inputs, executed) && fallback != [] ==> ChooseCases(solution, inputs, executed, fallback) == fallback
    ensures !CanonicalUsable(solution, inputs, executed) && fallback == [] ==> ChooseCases(solution, inputs, executed, fallback) == BlankCases(inputs)
  {
  }

  /** The tests padded to 18 with copies of the first, then cut at 18. */
  function PaddedCases(cases: seq<Case>): (r: seq<Case>)
    requires cases != []
    ensures |r| == TestCount
  {
    seq(TestCount, k requires 0 <= k < TestCount => if k < |cases| then cases[k] else cases[0])
  }

  /**
   * The test padding loop. Its base `test_cases[len(test_cases) % len(test_cases)]`
   * is always the first test. An empty list would raise `ZeroDivisionError`;
   * the caller never has one (see `ChosenCasesNonEmpty`).
   */
  method PadCases(cases: seq<Case>) returns (padded: seq<Case>)
    requires cases != []
    ensures padded == PaddedCases(cases)
  {
    var list := cases;
    while |list| < TestCount
      invariant |list| >= |cases|
      invariant forall k :: 0 <= k < |list| ==> list[k] == (if k < |cases| then cases[k] else cases[0])
      decreases TestCount - |list|
    {
      assert |list| % |list| == 0;
      var base := list[|list| % |list|];
      list := list + [Case(base.input, base.output)];
    }
    padded := list[..TestCount];
  }

  lemma ChosenCasesNonEmpty(solution: string, inputs: seq<string>, executed: seq<RunResult>, fallback: seq<Case>)
    requires inputs != []
    ensures ChooseCases(solution, inputs, executed, fallback) != []
  {
  }

  // ----------------------------------------------------- the model's outputs

  /** The output paired with an input: `str(output)` of a dict, a string itself, `""` for anything else or nothing. */
  function PairedOutput(candidate: Option<Json>): (r: string)
    ensures candidate.None? ==> r == ""
    ensures candidate.Some? && candidate.value.JString? ==> r == candidate.value.s
    ensures candidate.Some? && HasKey(candidate.value, "output") ==> r == PyStr(Get(candidate.value, "output"))
    ensures candidate.Some? && !candidate.value.JString? && !HasKey(candidate.value, "output") ==> r == ""
  {
    if candidate.Some? && HasKey(candidate.value, "output") then PyStr(Get(candidate.value, "output"))
    else if candidate.Some? && candidate.value.JString? then candidate.value.s
    else ""
  }

  function Candidate(items: seq<Json>, idx: nat): Option<Json>
  {
    if idx < |items| then Some(items[idx]) else None
  }

  /**
   * `_generate_hidden_test_outputs` after the model's reply: the outputs are
   * taken by position from the list (or from the `tests` value of a dict);
   * without such a list, or when the call failed, every output is empty.
   */
  function HiddenTestOutputs(reply: Option<Json>, inputs: seq<string>): (r: seq<Case>)
    ensures |r| == |inputs|
    ensures forall i :: 0 <= i < |inputs| ==> r[i].input == inputs[i]
    ensures reply.Some? && reply.value.JArray? ==>
      forall i :: 0 <= i < |inputs| ==> r[i].output == PairedOutput(Candidate(reply.value.items, i))
    ensures reply.Some? && HasKey(reply.value, "tests") && Get(reply.value, "tests").JArray? ==>
      forall i :: 0 <= i < |inputs| ==> r[i].output == PairedOutput(Candidate(Get(reply.value, "tests").items, i))
    ensures reply.None? || !(reply.value.JArray? || (HasKey(reply.value, "tests") && Get(reply.value, "tests").JArray?)) ==>
      forall i :: 0 <= i < |inputs| ==> r[i].output == ""
  {
    if reply.None? then BlankCases(inputs)
    else
      var results := reply.value;
      if results.JObject? && !HasKey(results, "tests") then BlankCases(inputs)
      else
        var testsArray := if results.JObject? then Get(results, "tests") else results;
        if testsArray.JArray? then
          seq(|inputs|, i requires 0 <= i < |inputs| => Case(inputs[i], PairedOutput(Candidate(testsArray.items, i))))
        else BlankCases(inputs)
  }

  /**
   * Pairing goes by position, from a bare list or from the `tests` list of a
   * dict alike: the `i`-th input gets the output of the `i`-th item, or `""`
   * past the end.
   */
  lemma PairingByPosition(reply: Json, items: seq<Json>, inputs: seq<string>, i: nat)
    requires reply == JArray(items) || (HasKey(reply, "tests") && Get(reply, "tests") == JArray(items))
    requires i < |inputs|
    ensures HiddenTestOutputs(Some(reply), inputs)[i].output
      == (if i < |items| then PairedOutput(Some(items[i])) else "")
  {
    assert HiddenTestOutputs(Some(reply), inputs)[i].output == PairedOutput(Candidate(items, i));
  }

  /** The pairing loop. */
  method PairOutputs(items: seq<Json>, inputs: seq<string>) returns (paired: seq<Case>)
    ensures |paired| == |inputs|
    ensures forall i :: 0 <= i < |inputs| ==> paired[i] == Case(inputs[i], PairedOutput(Candidate(items, i)))
  {
    paired := [];
    for idx := 0 to |inputs|
      invariant |paired| == idx
      invariant forall i :: 0 <= i < idx ==> paired[i] == Case(inputs[i], PairedOutput(Candidate(items, i)))
    {
      var candidate := if idx < |items| then Some(items[idx]) else None;
      var output: string;
      if candidate.Some? && HasKey(candidate.value, "output") {
        output := PyStr(Get(candidate.value, "output"));
      } else if candidate.Some? && candidate.value.JString? {
        output := candidate.value.s;
      } else {
        output := "";
      }
      paired := paired + [Case(inputs[idx], output)];
    }
  }

  /** `_generate_hidden_test_outputs`, from the model's reply on. */
  method GenerateHiddenTestOutputs(reply: Option<Json>, inputs: seq<string>) returns (cases: seq<Case>)
    ensures cases == HiddenTestOutputs(reply, inputs)
  {
    if reply.None? {
      return BlankCases(inputs);
    }
    var results := reply.value;
    var testsArray := results;
    if results.JObject? {
      if HasKey(results, "tests") {
        testsArray := Get(results, "tests");
      } else {
        return BlankCases(inputs);
      }
    }
    if testsArray.JArray? {
      cases := PairOutputs(testsArray.items, inputs);
    } else {
      cases := BlankCases(inputs);
    }
  }

  // ------------------------------------------------------------- the split

  /** A generated task's open examples, its hidden tests with outputs, and its hidden inputs. */
  datatype Suite = Suite(examples: seq<Case>, hiddenFull: seq<Case>, hidden: seq<string>)

  function Inputs(cases: seq<Case>): (r: seq<string>)
    ensures |r| == |cases|
    ensures forall i :: 0 <= i < |cases| ==> r[i] == cases[i].input
  {
    seq(|cases|, i requires 0 <= i < |cases| => cases[i].input)
  }

  function Min(a: int, b: int): int
  {
    if a < b then a else b
  }

  /** `test_cases[:3]`, `test_cases[3:18]` and the inputs of the latter. */
  function SplitSuite(cases: seq<Case>): (s: Suite)
    ensures s.examples + s.hiddenFull == cases[..Min(TestCount, |cases|)]
    ensures |s.examples| == Min(OpenCount, |cases|)
  {
    var a := Min(OpenCount, |cases|);
    var b := Min(TestCount, |cases|);
    var hiddenFull := cases[a..b];
    Suite(cases[..a], hiddenFull, Inputs(hiddenFull))
  }

  /** Of 18 tests, the first 3 are open and the other 15 hidden, in order, nothing lost or repeated. */
  lemma SplitSuiteShape(cases: seq<Case>)
    requires |cases| == TestCount
    ensures var s := SplitSuite(cases);
      && |s.examples| == OpenCount && |s.hiddenFull| == TestCount - OpenCount
      && s.examples + s.hiddenFull == cases
      && s.hidden == Inputs(cases)[OpenCount..]
  {
    var s := SplitSuite(cases);
    assert s.examples + s.hiddenFull == cases[..3] + cases[3..];
    assert cases[..3] + cases[3..] == cases;
  }

  // --------------------------------------------------------- code extraction

  /** The first line of a fenced block is a language tag when it is alphabetic, shorter than 15 characters, and not the only line. */
  function DropTag(lines: seq<string>): (r: seq<string>)
    requires |lines| >= 1
    ensures r == lines || r == lines[1..]
    ensures r != []
  {
    var first := Strip(lines[0]);
    if |lines| > 1 && |first| < 15 && IsAlpha(first) then lines[1..] else lines
  }

  /** `_extract_code_block`: the stripped text of the first fenced block without its language tag, or the stripped reply. */
  function ExtractCodeBlock(content: string): (r: string)
    ensures IsStripped(r)
    ensures !Contains(content, Fence) ==> r == Strip(content)
  {
    if Contains(content, Fence) then
      var parts := Split(content, Fence);
      if |parts| >= 2 then Strip(Join("\n", DropTag(Split(parts[1], "\n"))))
      else Strip(content)
    else Strip(content)
  }

  /** A text with a first line `tag` splits into `tag` and the lines after it. */
  lemma FirstLine(tag: string, code: string)
    requires NoChar(tag, '\n')
    ensures Split(tag + "\n" + code, "\n") == [tag] + Split(code, "\n")
  {
    NoOccurrence(tag, "\n" + code, "\n");
    SplitAtFirst(tag, "\n", code);
  }

  lemma StripLetters(s: string)
    requires IsAlpha(s)
    ensures Strip(s) == s
  {
    assert IsStripped(s);
    StripOfStripped(s);
  }

  /**
   * A fenced block with a language tag gives back exactly its code, stripped:
   * `_extract_code_block(prefix + "```" + tag + "\n" + code + "```" + suffix)`
   * is `code.strip()` when no backquote comes before the closing fence.
   */
  lemma FencedBlockExtracted(prefix: string, tag: string, code: string, suffix: string)
    requires NoChar(prefix, '`') && NoChar(tag, '`') && NoChar(code, '`')
    requires IsAlpha(tag) && |tag| < 15
    ensures ExtractCodeBlock(prefix + Fence + tag + "\n" + code + Fence + suffix) == Strip(code)
  {
    var body := tag + "\n" + code;
    var content := prefix + Fence + body + Fence + suffix;
    assert prefix + Fence + tag + "\n" + code + Fence + suffix == content;
    assert Contains(content, Fence) && |Split(content, Fence)| >= 2 && Split(content, Fence)[1] == body by {
      assert NoChar(body, '`');
      SecondPart(prefix, Fence, body, suffix);
    }
    assert DropTag(Split(body, "\n")) == Split(code, "\n") by {
      assert NoChar(tag, '\n');
      FirstLine(tag, code);
      StripLetters(tag);
    }
    JoinSplit(code, "\n");
  }

  /** A block of one line is kept whole, even when it is a single word. */
  lemma OneLineBlockKept(prefix: string, word: string, suffix: string)
    requires NoChar(prefix, '`') && NoChar(word, '`') && NoChar(word, '\n')
    ensures ExtractCodeBlock(prefix + Fence + word + Fence + suffix) == Strip(word)
  {
    SecondPart(prefix, Fence, word, suffix);
    SplitWithoutChar(word, "\n");
  }

  /**
   * A first line that is not a tag (`python3`, `c++`, a blank line, a word of
   * 15 letters or more) is kept: the block is the whole fenced text, stripped.
   */
  lemma UntaggedFirstLineKept(prefix: string, first: string, code: string, suffix: string)
    requires NoChar(prefix, '`') && NoChar(first, '`') && NoChar(code, '`') && NoChar(first, '\n')
    requires !IsAlpha(Strip(first)) || |Strip(first)| >= 15
    ensures ExtractCodeBlock(prefix + Fence + first + "\n" + code + Fence + suffix) == Strip(first + "\n" + code)
  {
    var body := first + "\n" + code;
    var content := prefix + Fence + body + Fence + suffix;
    assert prefix + Fence + first + "\n" + code + Fence + suffix == content;
    assert Contains(content, Fence) && |Split(content, Fence)| >= 2 && Split(content, Fence)[1] == body by {
      assert NoChar(body, '`');
      SecondPart(prefix, Fence, body, suffix);
    }
    assert DropTag(Split(body, "\n")) == Split(body, "\n") by {
      FirstLine(first, code);
    }
    JoinSplit(body, "\n");
  }

  /** `_generate_canonical_solution`: the code of the reply, or `""` when the call failed. */
  function CanonicalSolution(reply: Option<string>): (r: string)
    ensures reply.None? ==> r == ""
    ensures reply.Some? ==> r == ExtractCodeBlock(reply.value)
  {
    if reply.Some? then ExtractCodeBlock(reply.value) else ""
  }

  // ----------------------------------------------------------- the whole suite

  /**
   * The tests of a generated task, from the model's test list, its Python
   * solution and its outputs; `None` when running the solution raised out of
   * the executor.
   */
  function TestSuite(testsReply: Option<Json>, solutionReply: Option<string>, run: Interpreter, fuel: nat,
                     outputsReply: Option<Json>): (r: Option<Suite>)
    ensures r.None? <==> CanonicalSolution(solutionReply) != []
                         && ExecuteSpec(run, CanonicalSolution(solutionReply), PaddedInputs(HiddenTests(testsReply)), fuel).None?
  {
    var inputs := PaddedInputs(HiddenTests(testsReply));
    var solution := CanonicalSolution(solutionReply);
    var executed := if solution != [] then ExecuteSpec(run, solution, inputs, fuel) else Some([]);
    if executed.None? then None
    else
      var cases := ChooseCases(solution, inputs, executed.value, HiddenTestOutputs(outputsReply, inputs));
      ChosenCasesNonEmpty(solution, inputs, executed.value, HiddenTestOutputs(outputsReply, inputs));
      Some(SplitSuite(PaddedCases(cases)))
  }

  /** `generate_task`'s shaping of the tests, step by step. */
  method GenerateTestSuite(testsReply: Option<Json>, solutionReply: Option<string>, run: Interpreter, fuel: nat,
                           outputsReply: Option<Json>) returns (suite: Option<Suite>)
    ensures suite == TestSuite(testsReply, solutionReply, run, fuel, outputsReply)
  {
    var proposed := GenerateHiddenTests(testsReply);
    var inputs := PadInputs(proposed);
    var solution := CanonicalSolution(solutionReply);
    var cases: seq<Case> := [];
    var executed: seq<RunResult> := [];
    if solution != [] {
      var results := Execute(run, solution, inputs, fuel);
      if results.None? {
        return None;
      }
      executed := results.value;
      if executed != [] && |executed| == |inputs| && AllSucceeded(executed) {
        cases := CanonicalCases(executed);
      }
    }
    ghost var fallback := HiddenTestOutputs(outputsReply, inputs);
    if cases == [] || |cases| < |inputs| {
      cases := GenerateHiddenTestOutputs(outputsReply, inputs);
    }
    if cases == [] {
      cases := BlankCases(inputs);
    }
    assert cases == ChooseCases(solution, inputs, executed, fallback);
    var padded := PadCases(cases);
    suite := Some(SplitSuite(padded));
  }

  /**
   * The generated suite tests exactly the 18 padded inputs, in order: the 3
   * examples and the 15 hidden tests together carry them, whichever source
   * the outputs came from.
   */
  lemma SuiteCoversPaddedInputs(testsReply: Option<Json>, solutionReply: Option<string>, run: Interpreter, fuel: nat,
                                outputsReply: Option<Json>)
    requires TestSuite(testsReply, solutionReply, run, fuel, outputsReply).Some?
    ensures var s := TestSuite(testsReply, solutionReply, run, fuel, outputsReply).value;
      var inputs := PaddedInputs(HiddenTests(testsReply));
      && |s.examples| == OpenCount && |s.hiddenFull| == TestCount - OpenCount
      && Inputs(s.examples + s.hiddenFull) == inputs
      && s.hidden == inputs[OpenCount..]
  {
    var inputs := PaddedInputs(HiddenTests(testsReply));
    var solution := CanonicalSolution(solutionReply);
    var executed := if solution != [] then ExecuteSpec(run, solution, inputs, fuel) else Some([]);
    var fallback := HiddenTestOutputs(outputsReply, inputs);
    var cases := ChooseCases(solution, inputs, executed.value, fallback);
    ChooseCasesRules(solution, inputs, executed.value, fallback);
    if CanonicalUsable(solution, inputs, executed.value) {
      ResultShape(run, solution, inputs, fuel);
    }
    assert Inputs(cases) == inputs;
    var padded := PaddedCases(cases);
    assert padded == cases;
    SplitSuiteShape(padded);
  }
}
