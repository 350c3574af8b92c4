/**
 * The executor's language registry and workspace resolution
 * (executor/app/docker_executor.py): which language a file's extension
 * names, the per-language container configuration, and how the effective
 * language and the main file of a submission are chosen.
 */
module Languages {
  import opened Wrappers
  import opened PyText

  /** The four keys of `LANGUAGE_CONFIG`. */
  datatype Language = Python | TypeScript | Go | Java

  function Name(l: Language): string
  {
    match l
    case Python => "python"
    case TypeScript => "typescript"
    case Go => "go"
    case Java => "java"
  }

  /** `name in LANGUAGE_CONFIG`: the registry lookup, which is case-sensitive. */
  function FromName(name: string): (r: Option<Language>)
    ensures r.Some? ==> Name(r.value) == name
    ensures r.None? ==> forall l: Language :: Name(l) != name
  {
    if name == "python" then Some(Python)
    else if name == "typescript" then Some(TypeScript)
    else if name == "go" then Some(Go)
    else if name == "java" then Some(Java)
    else None
  }

  /** `LANGUAGE_CONFIG[l]['image']`. */
  function Image(l: Language): string
  {
    match l
    case Python => "python:3.12-slim"
    case TypeScript => "node:20-slim"
    case Go => "golang:1.23-alpine"
    case Java => "openjdk:21-jdk-slim"
  }

  /** `LANGUAGE_CONFIG[l]['main_file']`, the naming hint of each language. */
  function MainFileHint(l: Language): string
  {
    match l
    case Python => "main.py"
    case TypeScript => "main.ts"
    case Go => "main.go"
    case Java => "Main.java"
  }

  /** `use_network = language == 'typescript'`: only the language whose build fetches a compiler at run time gets a network. */
  predicate NeedsNetwork(l: Language)
  {
    l == TypeScript
  }

  /** The index of the last `c` in `s`, or -1 (`s.rfind(c)`). */
  function LastIndexOfChar(s: string, c: char): (r: int)
    ensures -1 <= r < |s|
    ensures r >= 0 ==> s[r] == c
    ensures forall j :: r < j < |s| ==> s[j] != c
  {
    if s == [] then -1
    else if s[|s| - 1] == c then |s| - 1
    else LastIndexOfChar(s[..|s| - 1], c)
  }

  /** Some character of `p[lo..hi]` is not a dot. */
  predicate HasNonDot(p: string, lo: int, hi: int)
    requires 0 <= lo && hi <= |p|
  {
    exists k :: lo <= k < hi && p[k] != '.'
  }

  /**
   * `os.path.splitext(p)[1]` on POSIX: from the last dot of the last path
   * component to the end, provided the component has something other than
   * dots before that dot; otherwise empty (".py" has no extension).
   */
  function Ext(p: string): string
  {
    var slash := LastIndexOfChar(p, '/');
    var dot := LastIndexOfChar(p, '.');
    if dot > slash && HasNonDot(p, slash + 1, dot) then p[dot..] else ""
  }

  /** `os.path.splitext(p)[0]`. */
  function Root(p: string): (r: string)
    ensures r + Ext(p) == p
  {
    p[..|p| - |Ext(p)|]
  }

  /** `os.path.basename(p)`: what follows the last slash. */
  function Basename(p: string): (b: string)
    ensures |b| <= |p| && b == p[|p| - |b|..]
    ensures NoChar(b, '/')
    ensures |b| < |p| ==> p[|p| - |b| - 1] == '/'
  {
    p[LastIndexOfChar(p, '/') + 1..]
  }

  /** `root + ext == p`, the identity `os.path.splitext` documents, and the shape of an extension. */
  lemma SplitExtParts(p: string)
    ensures Root(p) + Ext(p) == p
    ensures Ext(p) == "" || (Ext(p)[0] == '.' && forall i :: 1 <= i < |Ext(p)| ==> Ext(p)[i] != '.' && Ext(p)[i] != '/')
  {
  }

  /** The extension map of `_detect_language_from_file`, on a lowercased extension. */
  function LanguageOfExtension(e: string): Option<Language>
  {
    if e == ".py" then Some(Python)
    else if e == ".ts" || e == ".js" then Some(TypeScript)
    else if e == ".go" then Some(Go)
    else if e == ".java" then Some(Java)
    else None
  }

  /** `_detect_language_from_file`: the lowercased last extension looked up in the extension map. */
  function DetectLanguageFromFile(path: string): Option<Language>
  {
    LanguageOfExtension(Lower(Ext(path)))
  }

  /**
   * The fallback extension table of `execute_code` (`ext_map.get(lang, '.py')`),
   * keyed by the declared language's name.
   */
  function ExtensionFor(name: string): (e: string)
    ensures |e| >= 3 && e[0] == '.'
    ensures forall i :: 1 <= i < |e| ==> 'a' <= e[i] <= 'z'
  {
    if name == "typescript" then ".ts"
    else if name == "go" then ".go"
    else if name == "java" then ".java"
    else ".py"
  }

  /** Every fallback extension is in the extension map. */
  lemma FallbackExtensionKnown(name: string)
    ensures LanguageOfExtension(ExtensionFor(name)).Some?
  {
  }

  /** Detection depends on nothing but the lowercased last extension. */
  lemma DetectionByExtension(p: string, q: string)
    requires Lower(Ext(p)) == Lower(Ext(q))
    ensures DetectLanguageFromFile(p) == DetectLanguageFromFile(q)
  {
  }

  /** The last occurrence of `c` is the one after which `c` no longer occurs. */
  lemma LastIndexAt(s: string, c: char, k: nat)
    requires k < |s| && s[k] == c
    requires forall j :: k < j < |s| ==> s[j] != c
    ensures LastIndexOfChar(s, c) == k
  {
  }

  /** A path ending in a fallback extension has its last dot, and no slash, in that suffix's first place. */
  lemma SuffixDot(p: string, e: string)
    requires EndsWith(p, e) && |e| >= 3 && e[0] == '.'
    requires forall i :: 1 <= i < |e| ==> 'a' <= e[i] <= 'z'
    ensures LastIndexOfChar(p, '.') == |p| - |e|
    ensures LastIndexOfChar(p, '/') < |p| - |e|
  {
    var k := |p| - |e|;
    assert p[k] == '.' by {
      assert p[k..][0] == e[0];
    }
    assert forall j :: k < j < |p| ==> p[j] != '.' && p[j] != '/' by {
      forall j | k < j < |p|
        ensures p[j] != '.' && p[j] != '/'
      {
        assert p[j] == p[k..][j - k];
      }
    }
    LastIndexAt(p, '.', k);
  }

  /** A plain file name followed by an extension splits back into the two. */
  lemma ExtOfStem(stem: string, e: string)
    requires stem != [] && forall i :: 0 <= i < |stem| ==> stem[i] != '.' && stem[i] != '/'
    requires |e| >= 3 && e[0] == '.'
    requires forall i :: 1 <= i < |e| ==> 'a' <= e[i] <= 'z'
    ensures Ext(stem + e) == e && Root(stem + e) == stem
  {
    var p := stem + e;
    assert p[|p| - |e|..] == e;
    SuffixDot(p, e);
    assert p[0] == stem[0];
    assert HasNonDot(p, LastIndexOfChar(p, '/') + 1, |stem|) by {
      assert LastIndexOfChar(p, '/') == -1;
    }
    assert p[|stem|..] == e;
    assert p[..|stem|] == stem;
  }

  /**
   * The two tables agree: a file named with the fallback extension of a
   * language is detected as that language.
   */
  lemma TablesAgree(l: Language, stem: string)
    requires stem != [] && forall i :: 0 <= i < |stem| ==> stem[i] != '.' && stem[i] != '/'
    ensures DetectLanguageFromFile(stem + ExtensionFor(Name(l))) == Some(l)
  {
    StemDetected(stem, ExtensionFor(Name(l)));
    FallbackExtensionNamesLanguage(l);
  }

  /** The fallback extension of a language is the extension of that language. */
  lemma FallbackExtensionNamesLanguage(l: Language)
    ensures LanguageOfExtension(ExtensionFor(Name(l))) == Some(l)
  {
    match l {
      case Python =>
        assert ExtensionFor("python") == ".py";
      case TypeScript =>
        assert ExtensionFor("typescript") == ".ts";
        assert ".ts"[1] != ".py"[1];
      case Go =>
        assert ExtensionFor("go") == ".go";
        assert ".go"[1] != ".py"[1] && ".go"[1] != ".ts"[1] && ".go"[1] != ".js"[1];
      case Java =>
        assert ExtensionFor("java") == ".java";
        assert |".java"| != 3;
    }
  }

  /** A plain file name followed by a lower-case extension is detected by that extension. */
  lemma StemDetected(stem: string, e: string)
    requires stem != [] && forall i :: 0 <= i < |stem| ==> stem[i] != '.' && stem[i] != '/'
    requires |e| >= 3 && e[0] == '.'
    requires forall i :: 1 <= i < |e| ==> 'a' <= e[i] <= 'z'
    ensures DetectLanguageFromFile(stem + e) == LanguageOfExtension(e)
  {
    ExtOfStem(stem, e);
    LowerOfExtension(e);
  }

  /** The main-file hint of each language is detected as that language. */
  lemma HintsDetected(l: Language)
    ensures DetectLanguageFromFile(MainFileHint(l)) == Some(l)
  {
    var stem := if l == Java then "Main" else "main";
    assert MainFileHint(l) == stem + ExtensionFor(Name(l));
    TablesAgree(l, stem);
  }

  /** The index of the first path `wanted` holds for, in the order the files were submitted. */
  function FirstWhere(paths: seq<string>, wanted: string -> bool): (r: Option<nat>)
    ensures r.Some? ==> r.value < |paths| && wanted(paths[r.value])
    ensures r.Some? ==> forall j :: 0 <= j < r.value ==> !wanted(paths[j])
    ensures r.None? ==> forall j :: 0 <= j < |paths| ==> !wanted(paths[j])
  {
    if paths == [] then None
    else if wanted(paths[0]) then Some(0)
    else match FirstWhere(paths[1..], wanted)
      case None => None
      case Some(i) => Some(i + 1)
  }

  /** The first path whose extension names a language. */
  function FirstDetected(paths: seq<string>): (r: Option<nat>)
    ensures r.Some? ==> r.value < |paths| && DetectLanguageFromFile(paths[r.value]).Some?
    ensures r.Some? ==> forall j :: 0 <= j < r.value ==> DetectLanguageFromFile(paths[j]).None?
    ensures r.None? ==> forall j :: 0 <= j < |paths| ==> DetectLanguageFromFile(paths[j]).None?
  {
    FirstWhere(paths, p => DetectLanguageFromFile(p).Some?)
  }

  /** The first path that `endswith(ext)`. */
  function FirstEndingWith(paths: seq<string>, ext: string): (r: Option<nat>)
    ensures r.Some? ==> r.value < |paths| && EndsWith(paths[r.value], ext)
    ensures r.Some? ==> forall j :: 0 <= j < r.value ==> !EndsWith(paths[j], ext)
    ensures r.None? ==> forall j :: 0 <= j < |paths| ==> !EndsWith(paths[j], ext)
  {
    FirstWhere(paths, p => EndsWith(p, ext))
  }

  /** The effective language (a registry key or the declared name) and the main file. */
  datatype Resolved = Resolved(language: string, main: string)

  /**
   * Language and main-file resolution. `None` is the `IndexError` that
   * `list(files.keys())[0]` raises when there are no files.
   */
  function Resolve(declared: string, paths: seq<string>): (r: Option<Resolved>)
    ensures r.None? <==> paths == []
    ensures r.Some? ==> r.value.main in paths
  {
    match FirstDetected(paths)
    case Some(i) => Some(Resolved(Name(DetectLanguageFromFile(paths[i]).value), paths[i]))
    case None =>
      match FirstEndingWith(paths, ExtensionFor(declared))
      case Some(i) => Some(Resolved(declared, paths[i]))
      case None => if paths == [] then None else Some(Resolved(declared, paths[0]))
  }

  /**
   * The first file whose extension names a language fixes both the language
   * and the main file; when no file's does, the declared language stays.
   */
  lemma DetectionWins(declared: string, paths: seq<string>, i: nat)
    requires i < |paths| && DetectLanguageFromFile(paths[i]).Some?
    requires forall j :: 0 <= j < i ==> DetectLanguageFromFile(paths[j]).None?
    ensures Resolve(declared, paths) == Some(Resolved(Name(DetectLanguageFromFile(paths[i]).value), paths[i]))
  {
    FirstDetectedAt(paths, i);
  }

  lemma DeclaredWhenUndetected(declared: string, paths: seq<string>)
    requires paths != []
    requires forall j :: 0 <= j < |paths| ==> DetectLanguageFromFile(paths[j]).None?
    ensures Resolve(declared, paths).value.language == declared
  {
  }

  lemma FirstDetectedAt(paths: seq<string>, i: nat)
    requires i < |paths| && DetectLanguageFromFile(paths[i]).Some?
    requires forall j :: 0 <= j < i ==> DetectLanguageFromFile(paths[j]).None?
    ensures FirstDetected(paths) == Some(i)
  {
  }

  lemma NoneDetected(paths: seq<string>)
    requires forall j :: 0 <= j < |paths| ==> DetectLanguageFromFile(paths[j]).None?
    ensures FirstDetected(paths).None?
  {
  }

  lemma FirstEndingAt(paths: seq<string>, ext: string, i: nat)
    requires i < |paths| && EndsWith(paths[i], ext)
    requires forall j :: 0 <= j < i ==> !EndsWith(paths[j], ext)
    ensures FirstEndingWith(paths, ext) == Some(i)
  {
  }

  /** The first loop of `execute_code`: the first file whose extension names a language. */
  method DetectFromFiles(paths: seq<string>) returns (found: Option<nat>)
    ensures found == FirstDetected(paths)
  {
    var i := 0;
    while i < |paths| && DetectLanguageFromFile(paths[i]).None?
      invariant 0 <= i <= |paths|
      invariant forall j :: 0 <= j < i ==> DetectLanguageFromFile(paths[j]).None?
    {
      i := i + 1;
    }
    if i < |paths| {
      FirstDetectedAt(paths, i);
      found := Some(i);
    } else {
      NoneDetected(paths);
      found := None;
    }
  }

  /** The second loop: the first file that ends with the language's fallback extension. */
  method FindByExtension(paths: seq<string>, target: string) returns (found: Option<nat>)
    ensures found == FirstEndingWith(paths, target)
  {
    found := None;
    var k := 0;
    while k < |paths|
      invariant 0 <= k <= |paths|
      invariant forall j :: 0 <= j < k ==> !EndsWith(paths[j], target)
    {
      if EndsWith(paths[k], target) {
        FirstEndingAt(paths, target, k);
        return Some(k);
      }
      k := k + 1;
    }
  }

  /**
   * The part of `execute_code` that assigns `detected_language` and
   * `main_file_path`, ending with `list(files.keys())[0]`.
   */
  method ResolveLanguageAndMain(declared: string, paths: seq<string>) returns (r: Option<Resolved>)
    ensures r == Resolve(declared, paths)
  {
    var detected := DetectFromFiles(paths);
    if detected.Some? {
      var i := detected.value;
      return Some(Resolved(Name(DetectLanguageFromFile(paths[i]).value), paths[i]));
    }
    var byExt := FindByExtension(paths, ExtensionFor(declared));
    if byExt.Some? {
      return Some(Resolved(declared, paths[byExt.value]));
    }
    if |paths| == 0 {
      return None;
    }
    r := Some(Resolved(declared, paths[0]));
  }

  /**
   * The `endswith` fallback picks a file only when extension detection has
   * failed on every file, so the file it picks ends with the fallback
   * extension yet has no extension of its own: its name is nothing but dots
   * before that suffix (".py", "src/..py").
   */
  lemma FallbackPicksDotfile(declared: string, paths: seq<string>, i: nat)
    requires FirstDetected(paths).None?
    requires FirstEndingWith(paths, ExtensionFor(declared)) == Some(i)
    ensures var p, e := paths[i], ExtensionFor(declared);
      forall k :: |p| - |Basename(p)| <= k < |p| - |e| ==> p[k] == '.'
  {
    FallbackExtensionKnown(declared);
    UndetectedSuffix(paths[i], ExtensionFor(declared));
  }

  /** A path ending in a known extension that is not detected has only dots between its last slash and that suffix. */
  lemma UndetectedSuffix(p: string, e: string)
    requires EndsWith(p, e) && |e| >= 3 && e[0] == '.'
    requires forall i :: 1 <= i < |e| ==> 'a' <= e[i] <= 'z'
    requires LanguageOfExtension(e).Some? && DetectLanguageFromFile(p).None?
    ensures forall k :: |p| - |Basename(p)| <= k < |p| - |e| ==> p[k] == '.'
  {
    SuffixDot(p, e);
    var slash := LastIndexOfChar(p, '/');
    assert |p| - |Basename(p)| == slash + 1;
    DetectedBySuffix(p, e);
  }

  /** With something other than dots before the suffix, the suffix is the lowered extension. */
  lemma DetectedBySuffix(p: string, e: string)
    requires EndsWith(p, e) && |e| >= 3 && e[0] == '.'
    requires forall i :: 1 <= i < |e| ==> 'a' <= e[i] <= 'z'
    requires LastIndexOfChar(p, '.') == |p| - |e| && LastIndexOfChar(p, '/') < |p| - |e|
    ensures HasNonDot(p, LastIndexOfChar(p, '/') + 1, |p| - |e|) ==> Lower(Ext(p)) == e
  {
    if HasNonDot(p, LastIndexOfChar(p, '/') + 1, |p| - |e|) {
      ExtIsSuffix(p, e);
      LowerOfExtension(e);
    }
  }

  /** An extension of lower-case letters is its own lowering. */
  lemma LowerOfExtension(e: string)
    requires |e| >= 1 && e[0] == '.'
    requires forall i :: 1 <= i < |e| ==> 'a' <= e[i] <= 'z'
    ensures Lower(e) == e
  {
    forall i | 0 <= i < |e|
      ensures !('A' <= e[i] <= 'Z')
    {
      if i > 0 {
        assert 'a' <= e[i];
      }
    }
    LowerOfLowercase(e);
  }

  /** Under the same conditions the suffix is exactly `os.path.splitext`'s extension. */
  lemma ExtIsSuffix(p: string, e: string)
    requires EndsWith(p, e)
    requires LastIndexOfChar(p, '.') == |p| - |e| && LastIndexOfChar(p, '/') < |p| - |e|
    requires HasNonDot(p, LastIndexOfChar(p, '/') + 1, |p| - |e|)
    ensures Ext(p) == e
  {
    var slash, dot := LastIndexOfChar(p, '/'), LastIndexOfChar(p, '.');
    assert dot > slash && HasNonDot(p, slash + 1, dot);
    assert p[dot..] == e;
  }

  /** The fallback is reachable: a dotfile is chosen over the first file. */
  lemma DotfileChosenByFallback()
    ensures Resolve("python", ["README", ".py"]) == Some(Resolved("python", ".py"))
  {
    var paths := ["README", ".py"];
    assert LastIndexOfChar("README", '.') == -1;
    assert Ext("README") == "";
    assert LastIndexOfChar(".py", '.') == 0;
    assert !HasNonDot(".py", LastIndexOfChar(".py", '/') + 1, 0);
    assert Ext(".py") == "";
    assert DetectLanguageFromFile(paths[0]).None? && DetectLanguageFromFile(paths[1]).None?;
    assert FirstDetected(paths).None?;
    assert !EndsWith(paths[0], ".py") && EndsWith(paths[1], ".py");
    assert FirstEndingWith(paths, ExtensionFor("python")) == Some(1);
  }

  /** The scenario of a Go file submitted as Python: detection overrides the declared language. */
  lemma GoFileOverridesDeclaredPython()
    ensures Resolve("python", ["main.go"]) == Some(Resolved("go", "main.go"))
  {
    TablesAgree(Go, "main");
    assert "main" + ExtensionFor(Name(Go)) == "main.go";
  }
}
