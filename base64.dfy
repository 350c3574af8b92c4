/**
 * How a test's input reaches the program in batch mode: the executor encodes
 * the text as UTF-8, then as base64 (section 4 of RFC 4648, standard alphabet
 * with `=` padding, as Python's `base64.b64encode`), writes the result into a
 * shell line with `echo`, and the container's `base64 -d` turns it back into bytes.
 */
module Base64 {
  import opened Wrappers

  type Byte = b: int | 0 <= b < 256

  /** The character of a six-bit value in the base64 alphabet: A-Z, a-z, 0-9, `+`, `/`. */
  function Digit(v: nat): char
    requires v < 64
  {
    if v < 26 then (65 + v) as char
    else if v < 52 then (97 + v - 26) as char
    else if v < 62 then (48 + v - 52) as char
    else if v == 62 then '+' else '/'
  }

  /** `s.encode('utf-8')`: one to four bytes per code point. Dafny characters are Unicode scalar values, so no surrogate can occur. */
  function Utf8Char(c: char): (r: seq<Byte>)
    ensures 1 <= |r| <= 4
    ensures (|r| == 1) <==> (c as int < 0x80)
  {
    var cp := c as int;
    if cp < 0x80 then [cp]
    else if cp < 0x800 then [0xC0 + cp / 64, 0x80 + cp % 64]
    else if cp < 0x10000 then [0xE0 + cp / 4096, 0x80 + (cp / 64) % 64, 0x80 + cp % 64]
    else [0xF0 + cp / 262144, 0x80 + (cp / 4096) % 64, 0x80 + (cp / 64) % 64, 0x80 + cp % 64]
  }

  function Utf8(s: string): (r: seq<Byte>)
    ensures |s| <= |r| <= 4 * |s|
    ensures |r| == |s| <==> forall i :: 0 <= i < |s| ==> s[i] as int < 0x80
  {
    if s == [] then [] else Utf8Char(s[0]) + Utf8(s[1..])
  }

  /** ASCII text is encoded one byte per character, each byte the character's code. */
  lemma {:induction false} Utf8OfAscii(s: string)
    requires forall i :: 0 <= i < |s| ==> s[i] as int < 0x80
    ensures |Utf8(s)| == |s| && forall i :: 0 <= i < |s| ==> Utf8(s)[i] == s[i] as int
  {
    if s != [] {
      Utf8OfAscii(s[1..]);
      assert forall i :: 1 <= i < |s| ==> s[1..][i - 1] == s[i];
    }
  }

  /** The value of an alphabet character, if it is one. */
  function ValueOf(c: char): (r: Option<nat>)
    ensures r.Some? ==> r.value < 64 && Digit(r.value) == c
  {
    if 'A' <= c <= 'Z' then Some(c as int - 'A' as int)
    else if 'a' <= c <= 'z' then Some(c as int - 'a' as int + 26)
    else if '0' <= c <= '9' then Some(c as int - '0' as int + 52)
    else if c == '+' then Some(62)
    else if c == '/' then Some(63)
    else None
  }

  lemma ValueOfAlphabet(v: nat)
    requires v < 64
    ensures ValueOf(Digit(v)) == Some(v)
  {
  }

  /** Three bytes as four characters. */
  function EncodeGroup(b0: Byte, b1: Byte, b2: Byte): string
  {
    [Digit(b0 / 4), Digit((b0 % 4) * 16 + b1 / 16), Digit((b1 % 16) * 4 + b2 / 64), Digit(b2 % 64)]
  }

  /** `base64.b64encode(bytes)`: full groups, then a padded group for the last one or two bytes. */
  function Encode(b: seq<Byte>): (r: string)
    ensures |r| % 4 == 0
  {
    if |b| >= 3 then EncodeGroup(b[0], b[1], b[2]) + Encode(b[3..])
    else if |b| == 2 then EncodeGroup(b[0], b[1], 0)[..3] + "="
    else if |b| == 1 then EncodeGroup(b[0], 0, 0)[..2] + "=="
    else ""
  }

  /** `base64 -d` on text of whole four-character groups; `None` for anything it rejects. */
  function Decode(s: string): Option<seq<Byte>>
    decreases |s|
  {
    if s == [] then Some([])
    else if |s| < 4 then None
    else
      var v0, v1 := ValueOf(s[0]), ValueOf(s[1]);
      if v0.None? || v1.None? then None
      else if s[2] == '=' && s[3] == '=' && |s| == 4 then
        Some([v0.value * 4 + v1.value / 16])
      else
        var v2 := ValueOf(s[2]);
        if v2.None? then None
        else if s[3] == '=' && |s| == 4 then
          Some([v0.value * 4 + v1.value / 16, (v1.value % 16) * 16 + v2.value / 4])
        else
          var v3 := ValueOf(s[3]);
          if v3.None? then None
          else
            var rest := Decode(s[4..]);
            if rest.None? then None
            else Some([v0.value * 4 + v1.value / 16, (v1.value % 16) * 16 + v2.value / 4, (v2.value % 4) * 64 + v3.value] + rest.value)
  }

  /** The characters `Encode` can produce. */
  predicate IsBase64Char(c: char)
  {
    ValueOf(c).Some? || c == '='
  }

  /** Decoding what was encoded gives back exactly the bytes that were encoded. */
  lemma {:induction false} DecodeEncode(b: seq<Byte>)
    ensures Decode(Encode(b)) == Some(b)
    decreases |b|
  {
    if |b| >= 3 {
      var rest := b[3..];
      assert b == [b[0], b[1], b[2]] + rest;
      DecodeEncode(rest);
      DecodeFullGroup(b[0], b[1], b[2], Encode(rest), rest);
    } else if |b| == 2 {
      DecodeTwo(b[0], b[1]);
      assert b == [b[0], b[1]];
    } else if |b| == 1 {
      DecodeOne(b[0]);
      assert b == [b[0]];
    }
  }

  lemma DecodeFullGroup(b0: Byte, b1: Byte, b2: Byte, rest: string, restBytes: seq<Byte>)
    requires Decode(rest) == Some(restBytes)
    ensures Decode(EncodeGroup(b0, b1, b2) + rest) == Some([b0, b1, b2] + restBytes)
  {
    GroupValues(b0, b1, b2);
    var s := EncodeGroup(b0, b1, b2) + rest;
    assert s[4..] == rest;
    DecodeStep(s, b0 / 4, (b0 % 4) * 16 + b1 / 16, (b1 % 16) * 4 + b2 / 64, b2 % 64, restBytes);
    SixBitsToBytes(b0, b1, b2);
  }

  /** Decoding a group of four alphabet characters followed by decodable text. */
  lemma DecodeStep(s: string, v0: nat, v1: nat, v2: nat, v3: nat, restBytes: seq<Byte>)
    requires |s| >= 4 && v0 < 64 && v1 < 64 && v2 < 64 && v3 < 64
    requires ValueOf(s[0]) == Some(v0) && ValueOf(s[1]) == Some(v1)
    requires ValueOf(s[2]) == Some(v2) && ValueOf(s[3]) == Some(v3)
    requires Decode(s[4..]) == Some(restBytes)
    ensures Decode(s) == Some([v0 * 4 + v1 / 16, (v1 % 16) * 16 + v2 / 4, (v2 % 4) * 64 + v3] + restBytes)
  {
    assert s[2] != '=' && s[3] != '=';
    assert 0 <= v0 * 4 + v1 / 16 < 256 && 0 <= (v1 % 16) * 16 + v2 / 4 < 256 && 0 <= (v2 % 4) * 64 + v3 < 256;
  }

  lemma SixBitsToBytes(b0: Byte, b1: Byte, b2: Byte)
    ensures var v0, v1, v2, v3 := b0 / 4, (b0 % 4) * 16 + b1 / 16, (b1 % 16) * 4 + b2 / 64, b2 % 64;
      && v0 * 4 + v1 / 16 == b0 && (v1 % 16) * 16 + v2 / 4 == b1 && (v2 % 4) * 64 + v3 == b2
  {
  }

  lemma DecodeTwo(b0: Byte, b1: Byte)
    ensures Decode(Encode([b0, b1])) == Some([b0, b1])
  {
    GroupValues(b0, b1, 0);
    var s := Encode([b0, b1]);
    var v0, v1, v2 := b0 / 4, (b0 % 4) * 16 + b1 / 16, (b1 % 16) * 4;
    assert ValueOf(s[0]) == Some(v0) && ValueOf(s[1]) == Some(v1) && ValueOf(s[2]) == Some(v2);
    assert s[2] != '=' && s[3] == '=' && |s| == 4;
    assert v1 / 16 == b0 % 4 && v1 % 16 == b1 / 16 && v2 / 4 == b1 % 16;
  }

  lemma DecodeOne(b0: Byte)
    ensures Decode(Encode([b0])) == Some([b0])
  {
    GroupValues(b0, 0, 0);
    var s := Encode([b0]);
    var v0, v1 := b0 / 4, (b0 % 4) * 16;
    assert ValueOf(s[0]) == Some(v0) && ValueOf(s[1]) == Some(v1);
    assert s[2] == '=' && s[3] == '=' && |s| == 4;
    assert v1 / 16 == b0 % 4;
  }

  /** Each character of a group decodes to the six bits it was made from. */
  lemma GroupValues(b0: Byte, b1: Byte, b2: Byte)
    ensures var g := EncodeGroup(b0, b1, b2);
      && ValueOf(g[0]) == Some(b0 / 4)
      && ValueOf(g[1]) == Some((b0 % 4) * 16 + b1 / 16)
      && ValueOf(g[2]) == Some((b1 % 16) * 4 + b2 / 64)
      && ValueOf(g[3]) == Some(b2 % 64)
  {
    ValueOfAlphabet(b0 / 4);
    ValueOfAlphabet((b0 % 4) * 16 + b1 / 16);
    ValueOfAlphabet((b1 % 16) * 4 + b2 / 64);
    ValueOfAlphabet(b2 % 64);
  }

  /**
   * The encoded text uses only the alphabet and `=`: no quote, space, `$`,
   * backquote or backslash, so it passes through the double-quoted shell line
   * unchanged.
   */
  lemma {:induction false} EncodeIsShellSafe(b: seq<Byte>)
    ensures forall i :: 0 <= i < |Encode(b)| ==> IsBase64Char(Encode(b)[i])
    decreases |b|
  {
    if |b| >= 3 {
      EncodeIsShellSafe(b[3..]);
      assert Encode(b) == EncodeGroup(b[0], b[1], b[2]) + Encode(b[3..]);
    }
  }
}
