/**
 * The shell commands `execute_code` hands to the container runtime
 * (executor/app/docker_executor.py): the single-run command of each language,
 * the one-time build step and the runner of batch mode, the per-test command
 * that pipes the base64-encoded input into the runner, and the container
 * configuration.
 */
module Commands {
  import opened Wrappers
  import opened PyText
  import opened Languages
  import opened Base64

  /** The TypeScript compiler call shared by both modes. */
  const TscCall := "npx -y tsc --target ES2020 --module commonjs --esModuleInterop --skipLibCheck *.ts"

  /** The working directory of every container. */
  const Workspace := "/workspace"

  /** The command keeping a batch container alive between `exec` calls. */
  const KeepAlive := "/bin/sh -c \"sleep 3600\""

  /** The binary the Go build step writes. */
  const GoBinary := "main_bin"

  /** `os.path.splitext(os.path.basename(main))[0]`: the class `java` is asked to run. */
  function JavaClassName(main: string): (c: string)
    ensures NoChar(c, '/')
    ensures c + Ext(Basename(main)) == Basename(main)
  {
    var b := Basename(main);
    assert forall i :: 0 <= i < |Root(b)| ==> Root(b)[i] == b[i];
    Root(b)
  }

  /** `main.replace('.ts', '.js')`, as written: every occurrence is replaced, not only the extension. */
  function JsFileAsWritten(main: string): (r: string)
    ensures !Contains(main, ".ts") ==> r == main
  {
    if !Contains(main, ".ts") then ReplaceAbsent(main, ".ts", ".js"); ReplaceAll(main, ".ts", ".js")
    else ReplaceAll(main, ".ts", ".js")
  }

  /** The file `tsc` writes for `main`: its extension replaced by `.js`. */
  function JsFile(main: string): (r: string)
    ensures EndsWith(main, ".ts") ==> r == main[..|main| - 3] + ".js"
  {
    if EndsWith(main, ".ts") then main[..|main| - 3] + ".js" else main
  }

  /** The start of the single-run shell line of the compiled languages. */
  const ShellInWorkspace := "/bin/sh -c \"cd /workspace && "

  /** The single-run entry command. */
  function SingleRunCommand(l: Language, main: string): string
  {
    match l
    case TypeScript => ShellInWorkspace + TscCall + " 2>&1 && " + "node " + JsFileAsWritten(main) + "\""
    case Java => ShellInWorkspace + "javac " + main + " && " + "java " + JavaClassName(main) + "\""
    case Go => "go run /workspace/" + main
    case Python => "python /workspace/" + main
  }

  /** The build step of batch mode, run once inside the container; Python has none. */
  function BuildStep(l: Language, main: string): (r: Option<string>)
    ensures r.None? <==> l == Python
  {
    match l
    case TypeScript => Some(TscCall)
    case Java => Some("javac " + main)
    case Go => Some("go build -o " + GoBinary + " " + main)
    case Python => None
  }

  /** The build step as the login shell line `exec_run` receives. */
  function CompileCommand(l: Language, main: string): (r: Option<string>)
    ensures r.None? <==> l == Python
    ensures r.Some? ==> r.value == "/bin/sh -lc \"cd /workspace && " + BuildStep(l, main).value + "\""
  {
    match BuildStep(l, main)
    case None => None
    case Some(step) => Some("/bin/sh -lc \"cd /workspace && " + step + "\"")
  }

  /** `runner_command`: what each test's input is piped into, relative to the working directory. */
  function RunnerCommand(l: Language, main: string): (r: string)
    ensures l == Python ==> EndsWith(r, main)
    ensures l == TypeScript ==> EndsWith(r, JsFileAsWritten(main))
    ensures l == Java ==> EndsWith(r, JavaClassName(main))
    ensures l == Go ==> EndsWith(r, GoBinary)
  {
    match l
    case TypeScript => "node " + JsFileAsWritten(main)
    case Java => "java " + JavaClassName(main)
    case Go => "./" + GoBinary
    case Python => "python " + main
  }

  /** The base64 text of a test input, as `base64.b64encode(input.encode('utf-8')).decode('ascii')`. */
  function EncodedInput(input: string): (b: string)
    ensures Decode(b) == Some(Utf8(input))
  {
    DecodeEncode(Utf8(input));
    Encode(Utf8(input))
  }

  /** The per-test command: the encoded input is echoed, decoded in the container and piped into the runner. */
  function TestCommand(input: string, runner: string): string
  {
    "/bin/sh -lc \"cd /workspace && echo " + EncodedInput(input) + " | base64 -d | " + runner + "\""
  }

  /** `f'Execution timeout after {timeout} seconds'`. */
  function TimeoutMessage(timeout: int): string
  {
    "Execution timeout after " + IntToString(timeout) + " seconds"
  }

  /** The keyword arguments of `containers.create` that do not vary between the modes. */
  datatype ContainerSpec = ContainerSpec(
    image: string,
    command: string,
    memLimit: string,
    cpuPeriod: int,
    cpuQuota: int,
    networkDisabled: bool,
    workingDir: string,
    environment: Option<seq<(string, string)>>)

  function CreateSpec(l: Language, command: string): (c: ContainerSpec)
    ensures c.image == Image(l) && c.command == command
    ensures !c.networkDisabled <==> l == TypeScript
    ensures c.environment.Some? <==> l == TypeScript
    ensures c.cpuQuota * 2 == c.cpuPeriod
  {
    var useNetwork := NeedsNetwork(l);
    ContainerSpec(Image(l), command, "512m", 100000, 50000, !useNetwork, Workspace,
      if useNetwork then Some([("NPM_CONFIG_CACHE", "/tmp/.npm")]) else None)
  }

  /**
   * Java's single-run command is its batch build step chained with its batch
   * runner in one shell line: both modes build and run the same thing.
   */
  lemma JavaSingleRunIsBuildThenRun(main: string)
    ensures SingleRunCommand(Java, main)
      == ShellInWorkspace + BuildStep(Java, main).value + " && " + RunnerCommand(Java, main) + "\""
  {
    Regroup(ShellInWorkspace, "javac ", main, " && ", "java ", JavaClassName(main), "\"");
  }

  /** Regrouping a chain of concatenations. */
  lemma Regroup(a: string, b: string, c: string, d: string, e: string, f: string, g: string)
    ensures a + (b + c) + d + (e + f) + g == a + b + c + d + e + f + g
  {
    assert a + (b + c) == a + b + c;
    assert a + b + c + d + (e + f) == a + b + c + d + e + f;
  }

  /**
   * TypeScript's single-run command is the batch build step chained with the
   * batch runner, with the compiler's messages folded into the program's output.
   */
  lemma TypeScriptSingleRunIsBuildThenRun(main: string)
    ensures SingleRunCommand(TypeScript, main)
      == ShellInWorkspace + BuildStep(TypeScript, main).value + " 2>&1 && " + RunnerCommand(TypeScript, main) + "\""
  {
    assert RunnerCommand(TypeScript, main) == "node " + JsFileAsWritten(main);
  }

  /** An interpreted single run names the main file by its absolute path in the workspace. */
  lemma InterpretedRunsMainInWorkspace(main: string)
    ensures SingleRunCommand(Python, main) == "python " + Workspace + "/" + main
    ensures RunnerCommand(Python, main) == "python " + main
  {
  }

  /** The Go build writes the binary the Go runner executes. */
  lemma GoRunnerRunsBuiltBinary(main: string)
    ensures EndsWith(BuildStep(Go, main).value, main)
    ensures RunnerCommand(Go, main) == "./" + GoBinary
    ensures BuildStep(Go, main).value[..|"go build -o "| + |GoBinary|] == "go build -o " + GoBinary
  {
    var step := BuildStep(Go, main).value;
    assert step[|step| - |main|..] == main;
    assert step == ("go build -o " + GoBinary) + (" " + main);
  }

  /**
   * The Java class name is the file name without directory and extension:
   * `javac dir/Stem.java` is followed by `java Stem`.
   */
  lemma {:induction false} JavaClassOfPath(dir: string, stem: string)
    requires dir == [] || dir[|dir| - 1] == '/'
    requires stem != [] && forall i :: 0 <= i < |stem| ==> stem[i] != '.' && stem[i] != '/'
    ensures JavaClassName(dir + stem + ".java") == stem
  {
    var name := stem + ".java";
    ExtOfStem(stem, ".java");
    assert dir + stem + ".java" == dir + name;
    assert Basename(dir + name) == name by {
      forall i | 0 <= i < |name|
        ensures name[i] != '/'
      {
        if i >= |stem| {
          assert name[i] == ".java"[i - |stem|];
        }
      }
      BasenameOfSuffix(dir, name);
    }
  }

  /** The base name of `dir + name` is `name` when `name` has no slash and `dir` is empty or ends with one. */
  lemma BasenameOfSuffix(dir: string, name: string)
    requires forall i :: 0 <= i < |name| ==> name[i] != '/'
    requires dir == [] || dir[|dir| - 1] == '/'
    ensures Basename(dir + name) == name
  {
    var p := dir + name;
    if dir == [] {
      assert p == name;
    } else {
      LastIndexAt(p, '/', |dir| - 1);
      assert p[|dir|..] == name;
    }
  }

  /**
   * For a main file named `stem.ts` whose stem has no dot, the source's
   * replacement and the extension swap agree: node runs `stem.js`.
   */
  lemma JsFilesAgreeWithoutInnerDot(stem: string)
    requires NoChar(stem, '.')
    ensures JsFileAsWritten(stem + ".ts") == stem + ".js"
    ensures JsFile(stem + ".ts") == stem + ".js"
  {
    SplitAfterStem(stem, "");
    SplitEmpty(".ts");
    assert stem + ".ts" + "" == stem + ".ts";
    assert Join(".js", [stem, ""]) == stem + ".js" + Join(".js", [""]);
    var s := stem + ".ts";
    assert s[..|s| - 3] == stem;
  }

  /** A stem without a dot, then `.ts`: the first part of the split is the stem. */
  lemma SplitAfterStem(stem: string, rest: string)
    requires NoChar(stem, '.')
    ensures Split(stem + ".ts" + rest, ".ts") == [stem] + Split(rest, ".ts")
  {
    NoOccurrence(stem, ".ts" + rest, ".ts");
    assert stem + ".ts" + rest == stem + (".ts" + rest);
    SplitAtFirst(stem, ".ts", rest);
  }

  /** Joining two parts and an empty tail puts the separator after each part. */
  lemma JoinAround(sep: string, a: string, b: string)
    ensures Join(sep, [a, b, ""]) == a + sep + (b + sep)
  {
    assert [a, b, ""][1..] == [b, ""] && [b, ""][1..] == [""];
    assert Join(sep, [b, ""]) == b + sep + "";
    assert b + sep + "" == b + sep;
  }

  /** The extension swap on a name ending in `.ts`. */
  lemma JsFileOfTs(x: string)
    ensures JsFile(x + ".ts") == x + ".js"
  {
    var s := x + ".ts";
    assert s[|s| - 3..] == ".ts";
    assert s[..|s| - 3] == x;
  }

  /** Two dot-free stems, each followed by `.ts`, split into the stems and an empty tail. */
  lemma SplitTwoStems(a: string, b: string)
    requires NoChar(a, '.') && NoChar(b, '.')
    ensures Split(a + ".ts" + (b + ".ts"), ".ts") == [a, b, ""]
  {
    SplitAfterStem(a, b + ".ts");
    assert b + ".ts" == b + ".ts" + "";
    SplitAfterStem(b, "");
    SplitEmpty(".ts");
  }

  /**
   * The source's replacement renames an inner `.ts` as well, so for a main
   * file such as `a.tsb.ts` node is pointed at `a.jsb.js`, a file `tsc`
   * never writes (it writes `a.tsb.js`).
   */
  lemma JsFileAsWrittenRenamesInnerOccurrence(a: string, b: string)
    requires NoChar(a, '.') && NoChar(b, '.')
    ensures JsFileAsWritten(a + ".ts" + (b + ".ts")) == a + ".js" + (b + ".js")
    ensures JsFile(a + ".ts" + (b + ".ts")) == a + ".ts" + b + ".js"
    ensures JsFileAsWritten(a + ".ts" + (b + ".ts")) != JsFile(a + ".ts" + (b + ".ts"))
  {
    var main := a + ".ts" + (b + ".ts");
    var renamed := a + ".js" + (b + ".js");
    var swapped := a + ".ts" + b + ".js";
    assert JsFileAsWritten(main) == renamed by {
      SplitTwoStems(a, b);
      JoinAround(".js", a, b);
    }
    assert JsFile(main) == swapped by {
      assert main == a + ".ts" + b + ".ts";
      JsFileOfTs(a + ".ts" + b);
    }
    assert renamed[|a| + 1] != swapped[|a| + 1];
  }

  /**
   * Both modes start node on the as-written name: for `a.tsb.ts` the runner
   * is `node a.jsb.js`, not the `a.tsb.js` that `tsc` writes.
   */
  lemma TypeScriptRunnerMissesInnerTs(a: string, b: string)
    requires NoChar(a, '.') && NoChar(b, '.')
    ensures RunnerCommand(TypeScript, a + ".ts" + (b + ".ts")) == "node " + (a + ".js" + (b + ".js"))
    ensures RunnerCommand(TypeScript, a + ".ts" + (b + ".ts")) != "node " + JsFile(a + ".ts" + (b + ".ts"))
  {
    var main := a + ".ts" + (b + ".ts");
    JsFileAsWrittenRenamesInnerOccurrence(a, b);
    assert ("node " + JsFileAsWritten(main))[5..] == JsFileAsWritten(main);
    assert ("node " + JsFile(main))[5..] == JsFile(main);
  }

  /**
   * The argument of `echo` is plain base64 text, so it reaches `base64 -d`
   * unchanged, and decoding it gives back the UTF-8 bytes of the input exactly.
   */
  lemma TestInputRoundTrip(input: string, runner: string)
    ensures var b := EncodedInput(input);
      && TestCommand(input, runner) == "/bin/sh -lc \"cd /workspace && echo " + b + " | base64 -d | " + runner + "\""
      && Decode(b) == Some(Utf8(input))
      && forall i :: 0 <= i < |b| ==> IsBase64Char(b[i]) && b[i] != ' ' && b[i] != '"' && b[i] != '|'
  {
    var b := EncodedInput(input);
    DecodeEncode(Utf8(input));
    EncodeIsShellSafe(Utf8(input));
    forall i | 0 <= i < |b|
      ensures IsBase64Char(b[i]) && b[i] != ' ' && b[i] != '"' && b[i] != '|'
    {
      ShellSafeChar(b[i]);
    }
  }

  /** No character of the base64 alphabet is special to the shell here. */
  lemma ShellSafeChar(c: char)
    requires IsBase64Char(c)
    ensures c != ' ' && c != '"' && c != '|'
  {
  }

  /** The timeout message names the number of seconds. */
  lemma TimeoutMessageNamesSeconds(timeout: int)
    ensures var m := TimeoutMessage(timeout);
      && m[..|"Execution timeout after "|] == "Execution timeout after "
      && m[|"Execution timeout after "|..|m| - |" seconds"|] == IntToString(timeout)
  {
  }
}
