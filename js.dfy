/**
  JavaScript string semantics that the compiler's helpers rely on:
  optional values, thrown errors, truthiness of a string-or-undefined,
  `String.prototype.trim`, `slice` with negative bounds, `join`, and the
  double-quote wrapping that `JSON.stringify` applies to a string.
 */
module Js {

  datatype Option<+T> = None | Some(value: T)

  /** Either a value, or the exception a JavaScript evaluation throws. */
  datatype Result<+T, +E> = Success(value: T) | Failure(error: E)

  datatype JsError = TypeError(message: string) | ReferenceError(message: string)

  /** A value that is either a string or `undefined` is truthy iff it is a non-empty string. */
  predicate Truthy(o: Option<string>)
  {
    o.Some? && o.value != ""
  }

  /** `obj[key]` on a plain object used as a dictionary. */
  function Lookup(m: map<string, string>, key: string): (v: Option<string>)
    ensures v.Some? <==> key in m
    ensures v.Some? ==> v.value == m[key]
  {
    if key in m then Some(m[key]) else None
  }

  /** `"` + s + `"`: how the helpers quote a segment or a static value. */
  function Quote(s: string): (q: string)
    ensures |q| == |s| + 2
  {
    "\"" + s + "\""
  }

  /** A quoted string starts and ends with `"` and holds `s` in between. */
  lemma QuoteFacts(s: string)
    ensures Quote(s)[0] == '"' && Quote(s)[|s| + 1] == '"'
    ensures Quote(s)[1..|s| + 1] == s
  {
  }

  /** Drops the surrounding double quotes that Quote adds. */
  function Unquote(q: string): (s: string)
    requires |q| >= 2
    ensures |s| == |q| - 2
  {
    q[1..|q| - 1]
  }

  lemma UnquoteQuote(s: string)
    ensures Unquote(Quote(s)) == s
  {
    QuoteFacts(s);
  }

  predicate StartsWith(s: string, prefix: string)
  {
    |prefix| <= |s| && s[..|prefix|] == prefix
  }

  predicate EndsWith(s: string, suffix: string)
  {
    |suffix| <= |s| && s[|s| - |suffix|..] == suffix
  }

  lemma Affixes(prefix: string, middle: string, suffix: string)
    ensures StartsWith(prefix + middle + suffix, prefix)
    ensures EndsWith(prefix + middle + suffix, suffix)
  {
    var s := prefix + middle + suffix;
    assert s[..|prefix|] == prefix;
    assert s[|s| - |suffix|..] == suffix;
  }

  /** `parts.join(sep)` */
  function Join(parts: seq<string>, sep: string): (r: string)
    ensures |parts| == 1 ==> r == parts[0]
    ensures parts == [] ==> r == ""
  {
    if parts == [] then ""
    else if |parts| == 1 then parts[0]
    else parts[0] + sep + Join(parts[1..], sep)
  }

  /** The position `s.slice(0, end)` stops at, for a string of length `len`. */
  function SliceEnd(len: nat, end: int): (k: nat)
    ensures k <= len
    ensures end < 0 && -end <= len ==> k == len + end
    ensures 0 <= end <= len ==> k == end
  {
    if end < 0 then (if len + end < 0 then 0 else len + end)
    else if end > len then len else end
  }

  /** `s.slice(1, -1)`: the string without its first and last characters. */
  function DropEnds(s: string): (r: string)
    ensures |s| >= 2 ==> r == s[1..|s| - 1]
    ensures |s| < 2 ==> r == ""
  {
    if |s| < 2 then "" else s[1..|s| - 1]
  }

  /** The WhiteSpace and LineTerminator code points that `trim` removes. */
  predicate IsWhitespace(c: char)
  {
    var n := c as int;
    n == 0x09 || n == 0x0A || n == 0x0B || n == 0x0C || n == 0x0D || n == 0x20
    || n == 0xA0 || n == 0x1680 || (0x2000 <= n <= 0x200A)
    || n == 0x2028 || n == 0x2029 || n == 0x202F || n == 0x205F
    || n == 0x3000 || n == 0xFEFF
  }

  function TrimStart(s: string): (r: string)
    ensures |r| <= |s| && r == s[|s| - |r|..]
    ensures r != [] ==> !IsWhitespace(r[0])
    ensures s != [] && !IsWhitespace(s[0]) ==> r == s
    decreases |s|
  {
    if s != [] && IsWhitespace(s[0]) then TrimStart(s[1..]) else s
  }

  function TrimEnd(s: string): (r: string)
    ensures |r| <= |s| && r == s[..|r|]
    ensures r != [] ==> !IsWhitespace(r[|r| - 1])
    ensures s != [] && !IsWhitespace(s[|s| - 1]) ==> r == s
    decreases |s|
  {
    if s != [] && IsWhitespace(s[|s| - 1]) then TrimEnd(s[..|s| - 1]) else s
  }

  /** `s.trim()`: the longest infix with no white space at either end. */
  function Trim(s: string): (r: string)
    ensures |r| <= |s|
    ensures r != [] ==> !IsWhitespace(r[0]) && !IsWhitespace(r[|r| - 1])
    ensures s == [] || (!IsWhitespace(s[0]) && !IsWhitespace(s[|s| - 1])) ==> r == s
  {
    TrimEnd(TrimStart(s))
  }
}
