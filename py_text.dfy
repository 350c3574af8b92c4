/**
 * The few Python `str` operations the core relies on, defined on `seq<char>`:
 * `strip`, `lower` (on the characters that matter here), `isalpha`, `in`,
 * `find`, `split`, `join`, `replace`, `endswith` and `str(int)`.
 */
module PyText {
  import opened Wrappers

  /** Python's `str.isspace()` for one character: the characters that `strip()` removes. */
  predicate IsSpace(c: char)
  {
    || ('\U{0009}' <= c <= '\U{000D}')
    || ('\U{001C}' <= c <= '\U{001F}')
    || c == ' ' || c == '\U{0085}' || c == '\U{00A0}' || c == '\U{1680}'
    || ('\U{2000}' <= c <= '\U{200A}')
    || c == '\U{2028}' || c == '\U{2029}' || c == '\U{202F}' || c == '\U{205F}' || c == '\U{3000}'
  }

  /** Every character of `s` is whitespace (`not s.strip()` in the source). */
  predicate IsBlank(s: string)
  {
    forall i :: 0 <= i < |s| ==> IsSpace(s[i])
  }

  /** Neither end of `s` is whitespace: `s.strip() == s`. */
  predicate IsStripped(s: string)
  {
    s == [] || (!IsSpace(s[0]) && !IsSpace(s[|s| - 1]))
  }

  /** The index of the first non-whitespace character of `s` at or after `k`, or `|s|`. */
  function FirstNonSpace(s: string, k: nat): (n: nat)
    requires k <= |s|
    ensures k <= n <= |s|
    ensures forall i :: k <= i < n ==> IsSpace(s[i])
    ensures n < |s| ==> !IsSpace(s[n])
    decreases |s| - k
  {
    if k < |s| && IsSpace(s[k]) then FirstNonSpace(s, k + 1) else k
  }

  /** One past the last non-whitespace character of `s[..k]`, or 0. */
  function EndNonSpace(s: string, k: nat): (n: nat)
    requires k <= |s|
    ensures n <= k
    ensures forall i :: n <= i < k ==> IsSpace(s[i])
    ensures n > 0 ==> !IsSpace(s[n - 1])
  {
    if k > 0 && IsSpace(s[k - 1]) then EndNonSpace(s, k - 1) else k
  }

  /** `s.strip()`: the slice of `s` between the leading and the trailing whitespace. */
  function Strip(s: string): (r: string)
    ensures IsStripped(r)
    ensures r == [] <==> IsBlank(s)
    ensures |r| <= |s|
  {
    var a := FirstNonSpace(s, 0);
    var b := EndNonSpace(s, |s|);
    if a < b then s[a..b] else ""
  }

  lemma StripOfStripped(s: string)
    requires IsStripped(s)
    ensures Strip(s) == s
  {
  }

  /** Stripping twice is stripping once. */
  lemma StripIdempotent(s: string)
    ensures Strip(Strip(s)) == Strip(s)
  {
    StripOfStripped(Strip(s));
  }

  /** ASCII upper-case letters become lower-case; every other character is kept. */
  function LowerChar(c: char): char
  {
    if 'A' <= c <= 'Z' then (c as int + 32) as char else c
  }

  /**
   * `s.lower()` restricted to ASCII. Python lowers every non-ASCII character to
   * non-ASCII text except U+0130 (to "i" plus U+0307) and U+212A (to "k"), so for
   * the membership tests of the core, whose words contain neither a lone "i" nor "k"
   * next to the letters compared, this agrees with the full mapping.
   */
  function Lower(s: string): (r: string)
    ensures |r| == |s|
    ensures forall i :: 0 <= i < |s| ==> r[i] == LowerChar(s[i])
  {
    if s == [] then [] else [LowerChar(s[0])] + Lower(s[1..])
  }

  /** Text without upper-case ASCII letters is its own lower case. */
  lemma LowerOfLowercase(s: string)
    requires forall i :: 0 <= i < |s| ==> !('A' <= s[i] <= 'Z')
    ensures Lower(s) == s
  {
  }

  /** Lowering twice is lowering once. */
  lemma LowerIdempotent(s: string)
    ensures Lower(Lower(s)) == Lower(s)
  {
    LowerOfLowercase(Lower(s));
  }

  predicate IsAsciiLetter(c: char)
  {
    ('a' <= c <= 'z') || ('A' <= c <= 'Z')
  }

  /** `s.isalpha()` for ASCII text: non-empty and letters only. */
  predicate IsAlpha(s: string)
  {
    |s| > 0 && forall i :: 0 <= i < |s| ==> IsAsciiLetter(s[i])
  }

  /** `pat` occurs in `s` starting at index `j`. */
  predicate OccursAt(s: string, pat: string, j: int)
  {
    0 <= j && j + |pat| <= |s| && s[j..j + |pat|] == pat
  }

  /** The first occurrence of `pat` in `s` at or after `k`. */
  function IndexFrom(s: string, pat: string, k: nat): (r: Option<nat>)
    ensures r.Some? ==> k <= r.value && OccursAt(s, pat, r.value)
    ensures r.Some? ==> forall j :: k <= j < r.value ==> !OccursAt(s, pat, j)
    ensures r.None? ==> forall j :: k <= j ==> !OccursAt(s, pat, j)
    decreases |s| - k
  {
    if k + |pat| > |s| then None
    else if s[k..k + |pat|] == pat then Some(k)
    else IndexFrom(s, pat, k + 1)
  }

  /** `s.find(pat)`, with `None` for -1. */
  function IndexOf(s: string, pat: string): (r: Option<nat>)
    ensures r.Some? ==> OccursAt(s, pat, r.value)
    ensures r.Some? ==> forall j :: 0 <= j < r.value ==> !OccursAt(s, pat, j)
    ensures r.None? ==> forall j :: 0 <= j ==> !OccursAt(s, pat, j)
  {
    IndexFrom(s, pat, 0)
  }

  /** `pat in s`. */
  predicate Contains(s: string, pat: string)
  {
    IndexOf(s, pat).Some?
  }

  lemma ContainsAt(s: string, pat: string, j: int)
    requires OccursAt(s, pat, j)
    ensures Contains(s, pat)
  {
  }

  /** `s.endswith(suffix)`. */
  predicate EndsWith(s: string, suffix: string)
  {
    |suffix| <= |s| && s[|s| - |suffix|..] == suffix
  }

  /** `s.split(sep)` for a non-empty separator: never empty, and `[s]` when `sep` does not occur. */
  function Split(s: string, sep: string): (parts: seq<string>)
    requires sep != []
    ensures |parts| >= 1
    ensures !Contains(s, sep) ==> parts == [s]
    decreases |s|
  {
    var at := IndexOf(s, sep);
    if at.None? then [s] else [s[..at.value]] + Split(s[at.value + |sep|..], sep)
  }

  /** `sep.join(parts)`. */
  function Join(sep: string, parts: seq<string>): string
  {
    if parts == [] then ""
    else if |parts| == 1 then parts[0]
    else parts[0] + sep + Join(sep, parts[1..])
  }

  lemma SplitUnfold(s: string, sep: string, i: nat)
    requires sep != [] && IndexOf(s, sep) == Some(i)
    ensures Split(s, sep) == [s[..i]] + Split(s[i + |sep|..], sep)
  {
    var a, rest := s[..i], s[i + |sep|..];
    OccurrenceSplits(s, sep, i);
    SplitAtFirst(a, sep, rest);
  }

  /** Split at a character, no part contains that character. */
  lemma {:induction false} SplitOnCharLacksChar(s: string, c: char)
    ensures forall k :: 0 <= k < |Split(s, [c])| ==> NoChar(Split(s, [c])[k], c)
    decreases |s|
  {
    var parts := Split(s, [c]);
    match IndexOf(s, [c])
    case None =>
      CharBeforeOccurrence(s, c, |s|);
    case Some(i) =>
      CharBeforeOccurrence(s, c, i);
      assert NoChar(s[..i], c);
      SplitOnCharLacksChar(s[i + 1..], c);
      SplitUnfold(s, [c], i);
      forall k | 0 < k < |parts|
        ensures NoChar(parts[k], c)
      {
        assert parts[k] == Split(s[i + 1..], [c])[k - 1];
      }
  }

  /** Where a one-character pattern does not occur, that character does not appear. */
  lemma CharBeforeOccurrence(s: string, c: char, n: nat)
    requires n <= |s| && forall j :: 0 <= j < n ==> !OccursAt(s, [c], j)
    ensures NoChar(s[..n], c)
  {
    forall j | 0 <= j < n
      ensures s[j] != c
    {
      assert !OccursAt(s, [c], j) && s[j..j + 1] == [s[j]];
    }
  }

  lemma OccurrenceSplits(s: string, sep: string, i: nat)
    requires OccursAt(s, sep, i)
    ensures s == s[..i] + sep + s[i + |sep|..]
  {
  }

  lemma JoinCons(sep: string, h: string, tail: seq<string>)
    requires |tail| >= 1
    ensures Join(sep, [h] + tail) == h + sep + Join(sep, tail)
  {
    assert ([h] + tail)[1..] == tail;
  }

  /** `sep.join(s.split(sep)) == s`: splitting loses nothing. */
  lemma {:induction false} JoinSplit(s: string, sep: string)
    requires sep != []
    ensures Join(sep, Split(s, sep)) == s
    decreases |s|
  {
    var r := IndexOf(s, sep);
    if r.Some? {
      var i := r.value;
      var rest := s[i + |sep|..];
      SplitUnfold(s, sep, i);
      JoinCons(sep, s[..i], Split(rest, sep));
      JoinSplit(rest, sep);
      OccurrenceSplits(s, sep, i);
    }
  }

  /**
   * Splitting at a first occurrence: when `sep` first occurs in `a + sep + b`
   * right after `a`, the first part is `a` and the others are the parts of `b`.
   */
  lemma SplitAtFirst(a: string, sep: string, b: string)
    requires sep != []
    requires forall j :: 0 <= j < |a| ==> !OccursAt(a + sep + b, sep, j)
    ensures Split(a + sep + b, sep) == [a] + Split(b, sep)
  {
    var s := a + sep + b;
    assert OccursAt(s, sep, |a|) by { assert s[|a|..|a| + |sep|] == sep; }
    assert IndexOf(s, sep) == Some(|a|);
    assert s[..|a|] == a && s[|a| + |sep|..] == b;
  }

  /** Splitting the empty text gives one empty part. */
  lemma SplitEmpty(sep: string)
    requires sep != []
    ensures Split("", sep) == [""]
  {
    assert !OccursAt("", sep, 0);
  }

  /** `pat in s` splits `s` in at least two parts. */
  lemma SplitContains(s: string, sep: string)
    requires sep != [] && Contains(s, sep)
    ensures |Split(s, sep)| >= 2
  {
    SplitUnfold(s, sep, IndexOf(s, sep).value);
  }

  /** The character `c` does not occur in `s`. */
  predicate NoChar(s: string, c: char)
  {
    forall i :: 0 <= i < |s| ==> s[i] != c
  }

  /** A pattern cannot start inside a text that lacks its first character. */
  lemma NoOccurrence(s: string, rest: string, pat: string)
    requires pat != [] && NoChar(s, pat[0])
    ensures forall j :: 0 <= j < |s| ==> !OccursAt(s + rest, pat, j)
  {
    forall j | 0 <= j < |s|
      ensures !OccursAt(s + rest, pat, j)
    {
      assert (s + rest)[j] == s[j];
    }
  }

  /** A pattern cannot start inside a middle text that lacks its first character. */
  lemma NoOccurrenceIn(a: string, m: string, b: string, pat: string)
    requires pat != [] && NoChar(m, pat[0])
    ensures forall j :: |a| <= j < |a| + |m| ==> !OccursAt(a + m + b, pat, j)
  {
    var s := a + m + b;
    forall j | |a| <= j < |a| + |m|
      ensures !OccursAt(s, pat, j)
    {
      assert s[j] == m[j - |a|];
      if j + |pat| <= |s| {
        assert s[j..j + |pat|][0] == s[j];
      }
    }
  }

  /** The text between the first two separators is the second part, when neither text before it holds the separator's first character. */
  lemma SecondPart(prefix: string, sep: string, body: string, suffix: string)
    requires sep != [] && NoChar(prefix, sep[0]) && NoChar(body, sep[0])
    ensures var s := prefix + sep + body + sep + suffix;
      && Contains(s, sep)
      && |Split(s, sep)| >= 2 && Split(s, sep)[1] == body
  {
    var s := prefix + sep + body + sep + suffix;
    var rest := body + sep + suffix;
    assert s == prefix + sep + rest;
    NoOccurrence(prefix, sep + rest, sep);
    SplitAtFirst(prefix, sep, rest);
    NoOccurrence(body, sep + suffix, sep);
    SplitAtFirst(body, sep, suffix);
    assert s[|prefix|..|prefix| + |sep|] == sep;
    ContainsAt(s, sep, |prefix|);
  }

  /** A text without the separator's first character is a single part. */
  lemma SplitWithoutChar(s: string, sep: string)
    requires sep != [] && NoChar(s, sep[0])
    ensures Split(s, sep) == [s]
  {
    NoOccurrence(s, "", sep);
    assert s + "" == s;
  }

  /** The first occurrence at or after `k` is one with none between `k` and it. */
  lemma IndexFromAt(s: string, pat: string, k: nat, i: nat)
    requires k <= i && OccursAt(s, pat, i)
    requires forall j :: k <= j < i ==> !OccursAt(s, pat, j)
    ensures IndexFrom(s, pat, k) == Some(i)
  {
  }

  /** A pattern cannot start where its first character does not occur any more. */
  lemma NoOccurrenceFrom(s: string, pat: string, k: nat)
    requires pat != [] && forall i :: k <= i < |s| ==> s[i] != pat[0]
    ensures forall j :: k <= j ==> !OccursAt(s, pat, j)
  {
    forall j | k <= j
      ensures !OccursAt(s, pat, j)
    {
      if j + |pat| <= |s| {
        assert s[j..j + |pat|][0] == s[j];
      }
    }
  }

  /** What occurs in `b` occurs in `a + b`. */
  lemma ContainsInSuffix(a: string, b: string, pat: string)
    requires Contains(b, pat)
    ensures Contains(a + b, pat)
  {
    var j := IndexOf(b, pat).value;
    assert (a + b)[|a| + j..|a| + j + |pat|] == b[j..j + |pat|];
    ContainsAt(a + b, pat, |a| + j);
  }

  /** Lowering works character by character. */
  lemma LowerConcat(a: string, b: string)
    ensures Lower(a + b) == Lower(a) + Lower(b)
  {
    assert forall i :: 0 <= i < |a + b| ==> Lower(a + b)[i] == (Lower(a) + Lower(b))[i];
  }

  /** `s.replace(pat, repl)` for a non-empty `pat`: CPython's replacement of every non-overlapping occurrence, left to right. */
  function ReplaceAll(s: string, pat: string, repl: string): string
    requires pat != []
  {
    Join(repl, Split(s, pat))
  }

  /** Text without `pat` is left alone by `replace`. */
  lemma ReplaceAbsent(s: string, pat: string, repl: string)
    requires pat != [] && !Contains(s, pat)
    ensures ReplaceAll(s, pat, repl) == s
  {
  }

  function DigitChar(d: nat): char
    requires d < 10
  {
    "0123456789"[d]
  }

  /** `str(n)` for a natural number: decimal digits, no leading zero. */
  function NatToString(n: nat): (r: string)
    ensures |r| >= 1
    ensures forall i :: 0 <= i < |r| ==> '0' <= r[i] <= '9'
    ensures |r| > 1 ==> r[0] != '0'
    decreases n
  {
    if n < 10 then [DigitChar(n)] else NatToString(n / 10) + [DigitChar(n % 10)]
  }

  /** `str(i)` for a Python int. */
  function IntToString(i: int): (r: string)
    ensures |r| >= 1
    ensures (r[0] == '-') <==> i < 0
  {
    if i < 0 then "-" + NatToString(-i) else NatToString(i)
  }
}
