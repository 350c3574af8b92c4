/**
 * The Python values that `json.loads` produces (None, bool, int, float, str,
 * list, dict) and the two Python operations the core applies to them without
 * knowing their type: `str(v)` and iteration (`for item in v`).
 */
module JsonValue {
  import opened Wrappers
  import opened PyText

  /**
   * A decoded JSON document. A float keeps the text Python's `repr` gives it;
   * a dict keeps its keys in insertion order.
   */
  datatype Json =
    | JNull
    | JBool(b: bool)
    | JInt(i: int)
    | JFloat(repr: string)
    | JString(s: string)
    | JArray(items: seq<Json>)
    | JObject(fields: seq<(string, Json)>)

  /** `key in d` for a dict `d`. */
  predicate HasKey(v: Json, key: string)
  {
    v.JObject? && exists i :: 0 <= i < |v.fields| && v.fields[i].0 == key
  }

  /** `d[key]`: the value stored under the first field named `key`. */
  function Lookup(fields: seq<(string, Json)>, key: string): (r: Option<Json>)
    ensures r.Some? <==> exists i :: 0 <= i < |fields| && fields[i].0 == key
  {
    if fields == [] then None
    else if fields[0].0 == key then Some(fields[0].1)
    else Lookup(fields[1..], key)
  }

  /** `v[key]` for a dict that has the key. */
  function Get(v: Json, key: string): Json
    requires HasKey(v, key)
  {
    Lookup(v.fields, key).value
  }

  /** The text of a hex digit. */
  function HexDigit(d: nat): char
    requires d < 16
  {
    "0123456789abcdef"[d]
  }

  /**
   * `repr`'s escaping of one character inside a quoted string literal, for the
   * quote, the backslash, ASCII control characters and DEL; other characters
   * are kept as they are, including non-ASCII ones that Python would escape.
   */
  function EscapeChar(c: char, quote: char): string
  {
    if c == quote || c == '\\' then ['\\', c]
    else if c == '\t' then "\\t"
    else if c == '\n' then "\\n"
    else if c == '\r' then "\\r"
    else if c < ' ' || c == '\U{007F}' then ['\\', 'x', HexDigit(c as int / 16), HexDigit(c as int % 16)]
    else [c]
  }

  function EscapeString(s: string, quote: char): string
  {
    if s == [] then "" else EscapeChar(s[0], quote) + EscapeString(s[1..], quote)
  }

  /** `repr(s)` for a string: single quotes unless the text has a single quote and no double quote. */
  function ReprString(s: string): string
  {
    var quote := if '\'' in s && '"' !in s then '"' else '\'';
    [quote] + EscapeString(s, quote) + [quote]
  }

  /** `repr(v)`: how a value is written inside `str()` of a list or dict. */
  function Repr(v: Json): string
  {
    match v
    case JString(s) => ReprString(s)
    case JArray(items) =>
      "[" + Join(", ", seq(|items|, i requires 0 <= i < |items| => Repr(items[i]))) + "]"
    case JObject(fields) =>
      "{" + Join(", ", seq(|fields|, i requires 0 <= i < |fields| =>
        ReprString(fields[i].0) + ": " + Repr(fields[i].1))) + "}"
    case _ => Scalar(v)
  }

  /** `str(v)` of None, a bool, an int or a float. */
  function Scalar(v: Json): string
    requires !v.JString? && !v.JArray? && !v.JObject?
  {
    match v
    case JNull => "None"
    case JBool(b) => if b then "True" else "False"
    case JInt(i) => IntToString(i)
    case JFloat(t) => t
  }

  /** `str(v)`: a string is itself; everything else is its `repr`. */
  function PyStr(v: Json): (r: string)
    ensures v.JString? ==> r == v.s
    ensures !v.JString? ==> r == Repr(v)
  {
    if v.JString? then v.s else Repr(v)
  }

  /**
   * `for item in v`: a list yields its items, a string its characters, a dict
   * its keys; iterating over anything else raises `TypeError` (`None` here).
   */
  function Iterate(v: Json): (r: Option<seq<Json>>)
    ensures r.None? <==> !(v.JArray? || v.JString? || v.JObject?)
    ensures v.JArray? ==> r == Some(v.items)
    ensures r.Some? && !v.JArray? ==> forall i :: 0 <= i < |r.value| ==> r.value[i].JString?
  {
    match v
    case JArray(items) => Some(items)
    case JString(s) => Some(seq(|s|, i requires 0 <= i < |s| => JString([s[i]])))
    case JObject(fields) => Some(seq(|fields|, i requires 0 <= i < |fields| => JString(fields[i].0)))
    case _ => None
  }
}
