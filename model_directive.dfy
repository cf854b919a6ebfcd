/**
  Cross-platform code generation for the two-way binding directive `r-model`:
  splitting a bound property path into a base expression and key tokens
  (parseModel), the assignment code that writes a new value through that
  path (genAssignmentCode), and the value/expression/callback triple recorded
  on a component element (genComponentModel).
 */
module ModelDirective {
  import opened Js
  import opened Ast

  /** `{exp, tokens}`: the base expression and the key segments of a path. */
  datatype ModelParseResult = ModelParseResult(exp: string, tokens: seq<string>)

  predicate IsPathChar(c: char)
  {
    c == '.' || c == '[' || c == ']'
  }

  /** `value.includes('[') || value.includes(']') || value.includes('.')` */
  predicate HasPathSyntax(value: string)
  {
    '[' in value || ']' in value || '.' in value
  }

  // ---------------------------------------------------------------------
  // parseModel, as the one-pass scanner the source runs
  // ---------------------------------------------------------------------

  /** The scanner's variables between two characters: the tokens pushed so far,
      where the current segment starts, and the bracket depth. */
  datatype ScanState = ScanState(tokens: seq<string>, start: nat, depth: int)

  /** One iteration of the scan loop, on the character at index `i` of `s`.
      With `keyDots` false this is the loop as written; with `keyDots` true a
      dot inside brackets is left to the key, the reading the documented
      nested cases need. */
  function Step(st: ScanState, s: string, i: nat, keyDots: bool): (next: ScanState)
    requires st.start <= i < |s|
    ensures next.start <= i + 1
  {
    if s[i] == '.' && keyDots && st.depth > 0 then st
    else if s[i] == '.' then
      var tokens := if i > 0 && s[i - 1] == ']' then st.tokens else st.tokens + [Quote(s[st.start..i])];
      ScanState(tokens, i + 1, st.depth)
    else if s[i] == '[' then
      if st.depth == 0 then
        var tokens :=
          if st.start == i then st.tokens
          else if s[i - 1] == ']' then st.tokens + [s[st.start..i]]
          else st.tokens + [Quote(s[st.start..i])];
        ScanState(tokens, i + 1, 1)
      else ScanState(st.tokens, st.start, st.depth + 1)
    else if s[i] == ']' then
      if st.depth - 1 == 0 then ScanState(st.tokens + [s[st.start..i]], i + 1, 0)
      else ScanState(st.tokens, st.start, st.depth - 1)
    else st
  }

  /** The scanner's state after the loop's first `n` iterations over `s`. */
  function Scan(s: string, n: nat, keyDots: bool): (st: ScanState)
    requires n <= |s|
    ensures st.start <= n
  {
    if n == 0 then ScanState([], 0, 0) else Step(Scan(s, n - 1, keyDots), s, n - 1, keyDots)
  }

  /** The code after the loop: push the trailing segment, then cut the last
      token's source text off the end of `value` to get `exp`.  With no token
      at all, `tokens[tokens.length - 1].length` throws. */
  function Finish(value: string, st: ScanState): (r: Result<ModelParseResult, JsError>)
    requires st.start <= |value|
    ensures r.Failure? <==> st.tokens == [] && st.start == |value|
    ensures r.Success? ==> |r.value.tokens| >= 1 && StartsWith(value, r.value.exp)
  {
    var tokens := if st.start < |value| then st.tokens + [Quote(value[st.start..])] else st.tokens;
    if tokens == [] then Failure(TypeError("Cannot read properties of undefined (reading 'length')"))
    else
      var lastLength := |tokens[|tokens| - 1]|;
      var lastTokenLength := if EndsWith(value, "]") then lastLength + 2 else lastLength - 1;
      Success(ModelParseResult(value[..SliceEnd(|value|, -lastTokenLength)], tokens))
  }

  /** parseModel(val) as a function of the scanner's reading of dots. */
  function ParseWith(val: string, keyDots: bool): (r: Result<ModelParseResult, JsError>)
    ensures !HasPathSyntax(Trim(val)) ==> r == Success(ModelParseResult(Trim(val), [Trim(val)]))
    ensures r.Success? ==> |r.value.tokens| >= 1 && StartsWith(Trim(val), r.value.exp)
  {
    var value := Trim(val);
    if !HasPathSyntax(value) then Success(ModelParseResult(value, [value]))
    else Finish(value, Scan(value, |value|, keyDots))
  }

  /** What parseModel(val) returns, or the error it throws. */
  function ParsedModel(val: string): Result<ModelParseResult, JsError>
  {
    ParseWith(val, false)
  }

  /** parseModel with dots inside brackets kept in the key. */
  function ParsedModelIntended(val: string): Result<ModelParseResult, JsError>
  {
    ParseWith(val, true)
  }

  /** parseModel(val) */
  method ParseModel(val: string) returns (r: Result<ModelParseResult, JsError>)
    ensures r == ParsedModel(val)
  {
    var value := Trim(val);
    if !('[' in value) && !(']' in value) && !('.' in value) {
      return Success(ModelParseResult(value, [value]));
    }
    var st := ScanLoop(value);
    r := Finish(value, st);
  }

  /** The scanning loop of parseModel: one pass over `value`, pushing a token
      at each `.` and at each `[` or `]` that opens or closes a bracket. */
  method ScanLoop(value: string) returns (st: ScanState)
    ensures st == Scan(value, |value|, false)
  {
    var tokens: seq<string> := [];
    var start := 0;
    var depth := 0;
    var i, len := 0, |value|;
    while i < len
      invariant 0 <= start <= i <= len
      invariant ScanState(tokens, start, depth) == Scan(value, i, false)
    {
      ghost var before := ScanState(tokens, start, depth);
      if value[i] == '.' {
        if i == 0 || value[i - 1] != ']' {
          tokens := tokens + [Quote(value[start..i])];
        }
        start := i + 1;
      } else if value[i] == '[' {
        if depth == 0 {
          if start != i {
            if value[i - 1] == ']' {
              tokens := tokens + [value[start..i]];
            } else {
              tokens := tokens + [Quote(value[start..i])];
            }
          }
          start := i + 1;
        }
        depth := depth + 1;
      } else if value[i] == ']' {
        depth := depth - 1;
        if depth == 0 {
          tokens := tokens + [value[start..i]];
          start := i + 1;
        }
      }
      assert ScanState(tokens, start, depth) == Step(before, value, i, false);
      i := i + 1;
    }
    st := ScanState(tokens, start, depth);
  }

  // ---------------------------------------------------------------------
  // Facts about single steps and runs of steps
  // ---------------------------------------------------------------------

  /** The token that closing an open name segment pushes, if any. */
  function ClosedSegment(pending: string): seq<string>
  {
    if pending == "" then [] else [Quote(pending)]
  }

  /** Characters other than `.`, `[` and `]` leave the state as it was. */
  lemma StepPlain(st: ScanState, s: string, i: nat, keyDots: bool)
    requires st.start <= i < |s| && !IsPathChar(s[i])
    ensures Step(st, s, i, keyDots) == st
  {
  }

  /** Inside a bracket, `[` and a `]` that leaves it open only move the depth,
      and so does a dot when dots stay in the key. */
  lemma StepNested(st: ScanState, s: string, i: nat, keyDots: bool)
    requires st.start <= i < |s| && (keyDots || s[i] != '.')
    requires st.depth >= 1 && st.depth + BracketDelta(s[i]) >= 1
    ensures Step(st, s, i, keyDots) == ScanState(st.tokens, st.start, st.depth + BracketDelta(s[i]))
  {
  }

  /** A `.` closes the open name segment `pending` (empty right after a `]`):
      outside brackets always, inside them only as written. */
  lemma StepDot(st: ScanState, s: string, i: nat, keyDots: bool, pending: string)
    requires st.start <= i < |s| && 0 < i && s[i] == '.' && (st.depth <= 0 || !keyDots)
    requires s[st.start..i] == pending
    requires pending == "" <==> s[i - 1] == ']'
    ensures Step(st, s, i, keyDots) == ScanState(st.tokens + ClosedSegment(pending), i + 1, st.depth)
  {
    assert Step(st, s, i, keyDots).tokens == st.tokens + ClosedSegment(pending);
  }

  /** A `[` at depth 0 closes the open name segment `pending` and opens a key. */
  lemma StepOpen(st: ScanState, s: string, i: nat, keyDots: bool, pending: string)
    requires st.start <= i < |s| && 0 < i && s[i] == '[' && st.depth == 0
    requires s[st.start..i] == pending
    requires pending == "" <==> s[i - 1] == ']'
    ensures Step(st, s, i, keyDots) == ScanState(st.tokens + ClosedSegment(pending), i + 1, 1)
  {
    assert Step(st, s, i, keyDots).tokens == st.tokens + ClosedSegment(pending);
  }

  /** A `]` that brings the depth back to 0 pushes the key since `start` raw. */
  lemma StepClose(st: ScanState, s: string, i: nat, keyDots: bool)
    requires st.start <= i < |s| && s[i] == ']' && st.depth == 1
    ensures Step(st, s, i, keyDots) == ScanState(st.tokens + [s[st.start..i]], i + 1, 0)
  {
    assert Step(st, s, i, keyDots).tokens == st.tokens + [s[st.start..i]];
  }

  /** A step only looks at the characters up to the one it scans. */
  lemma StepAgree(st: ScanState, s: string, t: string, i: nat, keyDots: bool)
    requires st.start <= i < |s| && i < |t| && s[..i + 1] == t[..i + 1]
    ensures Step(st, s, i, keyDots) == Step(st, t, i, keyDots)
  {
    forall j | 0 <= j <= i ensures s[j] == t[j] {
      assert s[j] == s[..i + 1][j] == t[..i + 1][j] == t[j];
    }
    assert s[st.start..i] == t[st.start..i];
  }

  /** The first `n` iterations only look at the first `n` characters. */
  lemma {:induction false} ScanAgree(s: string, t: string, n: nat, keyDots: bool)
    requires n <= |s| && n <= |t| && s[..n] == t[..n]
    ensures Scan(s, n, keyDots) == Scan(t, n, keyDots)
    decreases n
  {
    if n > 0 {
      assert s[..n - 1] == s[..n][..n - 1] == t[..n][..n - 1] == t[..n - 1];
      ScanAgree(s, t, n - 1, keyDots);
      StepAgree(Scan(s, n - 1, keyDots), s, t, n - 1, keyDots);
    }
  }

  /** A run of characters other than `.`, `[` and `]` leaves the scanner as it was. */
  lemma {:induction false} ScanPlain(s: string, n: nat, m: nat, keyDots: bool)
    requires n <= m <= |s|
    requires forall j :: n <= j < m ==> !IsPathChar(s[j])
    ensures Scan(s, m, keyDots) == Scan(s, n, keyDots)
    decreases m
  {
    if m > n {
      ScanPlain(s, n, m - 1, keyDots);
      StepPlain(Scan(s, m - 1, keyDots), s, m - 1, keyDots);
    }
  }

  /** Inside an open bracket, a run whose brackets never close the outer one
      only moves the depth: no token is pushed, `start` stays put.  As
      written, this needs the run to be free of dots. */
  lemma {:induction false} ScanNested(s: string, n: nat, m: nat, keyDots: bool)
    requires n <= m <= |s|
    requires keyDots || forall j :: n <= j < m ==> s[j] != '.'
    requires Nested(s[n..m], Scan(s, n, keyDots).depth)
    ensures var st := Scan(s, n, keyDots);
      Scan(s, m, keyDots) == ScanState(st.tokens, st.start, st.depth + Depth(s[n..m]))
    decreases m - n
  {
    if n < m {
      var st := Scan(s, n, keyDots);
      assert s[n..m][1..] == s[n + 1..m];
      StepNested(st, s, n, keyDots);
      assert Scan(s, n + 1, keyDots) == Step(st, s, n, keyDots);
      ScanNested(s, n + 1, m, keyDots);
    }
  }

  // ---------------------------------------------------------------------
  // Property paths
  // ---------------------------------------------------------------------

  /** One access step after the root: `.name` or `[key]`. */
  datatype Accessor = Member(name: string) | Index(key: string)

  /** `root` followed by access steps, e.g. `user[key].name`. */
  datatype ModelPath = ModelPath(root: string, accessors: seq<Accessor>)

  predicate PlainSegment(s: string)
  {
    forall i :: 0 <= i < |s| ==> !IsPathChar(s[i])
  }

  function BracketDelta(c: char): int
  {
    if c == '[' then 1 else if c == ']' then -1 else 0
  }

  /** Opening minus closing brackets in `s`. */
  function Depth(s: string): int
  {
    if s == [] then 0 else BracketDelta(s[0]) + Depth(s[1..])
  }

  /** Read from inside `d` open brackets, `s` never closes the outermost one. */
  predicate Nested(s: string, d: int)
  {
    d >= 1 && (s != [] ==> Nested(s[1..], d + BracketDelta(s[0])))
  }

  /** A bracket key: balanced brackets, so nested ones stay inside the key. */
  predicate BalancedKey(k: string)
  {
    Depth(k) == 0 && Nested(k, 1)
  }

  predicate DotFree(k: string)
  {
    forall i :: 0 <= i < |k| ==> k[i] != '.'
  }

  predicate ValidAccessor(a: Accessor)
  {
    match a
    case Member(n) => n != [] && PlainSegment(n)
    case Index(k) => BalancedKey(k)
  }

  /** A step the scanner can read: any balanced key when dots inside brackets
      stay in the key, only a dot-free one otherwise. */
  predicate ReadableAccessor(a: Accessor, keyDots: bool)
  {
    ValidAccessor(a) && (a.Index? ==> keyDots || DotFree(a.key))
  }

  /** A well-formed path whose keys the scanner can read. */
  predicate ReadablePath(p: ModelPath, keyDots: bool)
  {
    && p.root != [] && PlainSegment(p.root)
    && forall i :: 0 <= i < |p.accessors| ==> ReadableAccessor(p.accessors[i], keyDots)
  }

  function RenderAccessor(a: Accessor): string
  {
    match a
    case Member(n) => "." + n
    case Index(k) => "[" + k + "]"
  }

  /** The source text of a path: the root, then each step's text in order. */
  function Render(p: ModelPath): string
    decreases |p.accessors|
  {
    if p.accessors == [] then p.root
    else Render(Prefix(p)) + RenderAccessor(p.accessors[|p.accessors| - 1])
  }

  /** A dot segment becomes a string literal, a bracket key stays raw. */
  function AccessorToken(a: Accessor): string
  {
    match a
    case Member(n) => Quote(n)
    case Index(k) => k
  }

  function AccessorTokens(accs: seq<Accessor>): (ts: seq<string>)
    ensures |ts| == |accs|
  {
    if accs == [] then [] else AccessorTokens(accs[..|accs| - 1]) + [AccessorToken(accs[|accs| - 1])]
  }

  /** The path without its last access step. */
  function Prefix(p: ModelPath): ModelPath
    requires p.accessors != []
  {
    ModelPath(p.root, p.accessors[..|p.accessors| - 1])
  }

  /** The tokens parseModel is meant to produce for a path, in source order. */
  function PathTokens(p: ModelPath): (ts: seq<string>)
    ensures |ts| == |p.accessors| + 1
  {
    if p.accessors == [] then [p.root] else [Quote(p.root)] + AccessorTokens(p.accessors)
  }

  /** The object the last access step reads from. */
  function BaseExpression(p: ModelPath): string
  {
    if p.accessors == [] then p.root else Render(Prefix(p))
  }

  // The scanner's state at the end of a rendered path: the tokens already
  // pushed, and the name segment still open (empty after a bracket).

  function PendingName(p: ModelPath): string
  {
    if p.accessors == [] then p.root
    else match p.accessors[|p.accessors| - 1]
      case Member(n) => n
      case Index(_) => ""
  }

  function CommittedTokens(p: ModelPath): seq<string>
  {
    if p.accessors == [] then []
    else match p.accessors[|p.accessors| - 1]
      case Member(_) => [Quote(p.root)] + AccessorTokens(Prefix(p).accessors)
      case Index(_) => [Quote(p.root)] + AccessorTokens(p.accessors)
  }

  predicate BracketFree(k: string)
  {
    forall i :: 0 <= i < |k| ==> k[i] != '[' && k[i] != ']'
  }

  /** Text with no brackets keeps the depth it starts at. */
  lemma {:induction false} BracketFreeNested(k: string, d: int)
    requires BracketFree(k) && d >= 1
    ensures Depth(k) == 0 && Nested(k, d)
    decreases |k|
  {
    if k != [] {
      assert BracketFree(k[1..]) by {
        forall i | 0 <= i < |k[1..]| ensures k[1..][i] != '[' && k[1..][i] != ']' {
          assert k[1..][i] == k[i + 1];
        }
      }
      BracketFreeNested(k[1..], d);
    }
  }

  /** A bracket key with no brackets and no dots is balanced. */
  lemma PlainKeyBalanced(k: string)
    requires PlainSegment(k)
    ensures BalancedKey(k) && DotFree(k)
  {
    assert BracketFree(k);
    BracketFreeNested(k, 1);
  }

  /** Where the characters of `x.n` sit in the text; `i` is any cut in `x`. */
  lemma MemberTextLayout(x: string, n: string, y: string, i: nat)
    requires y == x + ['.'] + n && i <= |x|
    ensures |y| == |x| + 1 + |n| && y[..|x|] == x && y[|x|] == '.'
    ensures y[i..|x|] == x[i..]
    ensures forall j :: |x| + 1 <= j < |y| ==> y[j] == n[j - |x| - 1]
  {
  }

  /** Scanning `.n` after text `x` whose open name segment is `pending`
      closes that segment and opens `n`. */
  lemma ScanMemberText(x: string, pending: string, n: string, y: string, keyDots: bool)
    requires x != [] && PlainSegment(n) && Scan(x, |x|, keyDots).depth == 0
    requires x[Scan(x, |x|, keyDots).start..] == pending
    requires pending == "" <==> x[|x| - 1] == ']'
    requires y == x + ['.'] + n
    ensures Scan(y, |y|, keyDots) == ScanState(Scan(x, |x|, keyDots).tokens + ClosedSegment(pending), |x| + 1, 0)
  {
    MemberTextLayout(x, n, y, Scan(x, |x|, keyDots).start);
    ScanClosingAfter(x, pending, y, keyDots);
    ScanPlain(y, |x| + 1, |y|, keyDots);
  }

  /** The character after text `x` closes its open name segment when it is
      a `.`, or a `[` at depth 0. */
  lemma ScanClosingAfter(x: string, pending: string, y: string, keyDots: bool)
    requires x != [] && |x| < |y| && y[..|x|] == x && (y[|x|] == '.' || y[|x|] == '[')
    requires Scan(x, |x|, keyDots).depth == 0
    requires y[Scan(x, |x|, keyDots).start..|x|] == pending
    requires pending == "" <==> x[|x| - 1] == ']'
    ensures Scan(y, |x| + 1, keyDots)
            == ScanState(Scan(x, |x|, keyDots).tokens + ClosedSegment(pending), |x| + 1,
                         if y[|x|] == '[' then 1 else 0)
  {
    var st := Scan(x, |x|, keyDots);
    assert x[..|x|] == x;
    ScanAgree(x, y, |x|, keyDots);
    assert y[|x| - 1] == x[|x| - 1];
    if y[|x|] == '.' {
      StepDot(st, y, |x|, keyDots, pending);
    } else {
      StepOpen(st, y, |x|, keyDots, pending);
    }
  }

  /** Where the characters of `x[k]` sit in the text; `i` is any cut in `x`. */
  lemma IndexTextLayout(x: string, k: string, y: string, i: nat)
    requires y == x + ['['] + k + [']'] && i <= |x|
    ensures |y| == |x| + 1 + |k| + 1
    ensures y[..|x|] == x && y[|x|] == '[' && y[|y| - 1] == ']' && y[|x| + 1 + |k|] == ']'
    ensures y[|x| + 1..|x| + 1 + |k|] == k
    ensures y[i..|x|] == x[i..]
  {
    assert y[|x| + 1..|x| + 1 + |k|] == k;
  }

  /** A balanced key read inside one open bracket leaves that bracket open. */
  lemma ScanKey(y: string, base: nat, k: string, keyDots: bool)
    requires base + |k| <= |y| && y[base..base + |k|] == k
    requires BalancedKey(k) && (keyDots || DotFree(k)) && Scan(y, base, keyDots).depth == 1
    ensures var st := Scan(y, base, keyDots);
      Scan(y, base + |k|, keyDots) == ScanState(st.tokens, st.start, 1)
  {
    forall j | base <= j < base + |k| ensures y[j] == k[j - base] {
    }
    ScanNested(y, base, base + |k|, keyDots);
  }

  /** Scanning `[k` at depth 0 after text `x` closes its open segment and
      leaves the key open. */
  lemma ScanOpenKeyText(x: string, pending: string, k: string, y: string, keyDots: bool)
    requires x != [] && Scan(x, |x|, keyDots).depth == 0 && BalancedKey(k) && (keyDots || DotFree(k))
    requires x[Scan(x, |x|, keyDots).start..] == pending
    requires pending == "" <==> x[|x| - 1] == ']'
    requires y == x + ['['] + k + [']']
    ensures Scan(y, |x| + 1 + |k|, keyDots)
            == ScanState(Scan(x, |x|, keyDots).tokens + ClosedSegment(pending), |x| + 1, 1)
  {
    IndexTextLayout(x, k, y, Scan(x, |x|, keyDots).start);
    ScanClosingAfter(x, pending, y, keyDots);
    ScanKey(y, |x| + 1, k, keyDots);
  }

  /** Scanning `[k]` at depth 0 after text `x` closes its open segment and
      pushes `k` raw. */
  lemma ScanIndexText(x: string, pending: string, k: string, y: string, keyDots: bool)
    requires x != [] && Scan(x, |x|, keyDots).depth == 0 && BalancedKey(k) && (keyDots || DotFree(k))
    requires x[Scan(x, |x|, keyDots).start..] == pending
    requires pending == "" <==> x[|x| - 1] == ']'
    requires y == x + ['['] + k + [']']
    ensures Scan(y, |y|, keyDots) == ScanState(Scan(x, |x|, keyDots).tokens + ClosedSegment(pending) + [k], |y|, 0)
  {
    var m := |x| + 1 + |k|;
    var tokens := Scan(x, |x|, keyDots).tokens + ClosedSegment(pending);
    IndexTextLayout(x, k, y, 0);
    ScanOpenKeyText(x, pending, k, y, keyDots);
    assert Scan(y, m, keyDots) == ScanState(tokens, |x| + 1, 1);
    ScanCloseAt(y, m, keyDots);
    assert y[|x| + 1..m] == k && m + 1 == |y|;
  }

  /** The scan past a `]` that closes the outermost bracket. */
  lemma ScanCloseAt(y: string, m: nat, keyDots: bool)
    requires m < |y| && y[m] == ']' && Scan(y, m, keyDots).depth == 1
    ensures var st := Scan(y, m, keyDots);
      Scan(y, m + 1, keyDots) == ScanState(st.tokens + [y[st.start..m]], m + 1, 0)
  {
    StepClose(Scan(y, m, keyDots), y, m, keyDots);
  }

  /** The scan of a rendered path has pushed every token except the open name
      segment, which runs from `start` to the end, and is outside any bracket. */
  predicate ScannedAsPath(p: ModelPath, keyDots: bool)
  {
    var r := Render(p);
    var st := Scan(r, |r|, keyDots);
    && st.depth == 0
    && st.tokens == CommittedTokens(p)
    && r[st.start..] == PendingName(p)
  }

  /** A readable path's prefix is readable, and so is its last step. */
  lemma ReadablePrefix(p: ModelPath, keyDots: bool)
    requires ReadablePath(p, keyDots) && p.accessors != []
    ensures ReadablePath(Prefix(p), keyDots)
    ensures ReadableAccessor(p.accessors[|p.accessors| - 1], keyDots)
  {
    var q := Prefix(p);
    forall i | 0 <= i < |q.accessors| ensures ReadableAccessor(q.accessors[i], keyDots) {
      assert q.accessors[i] == p.accessors[i];
    }
  }

  lemma {:induction false} ScanPath(p: ModelPath, keyDots: bool)
    requires ReadablePath(p, keyDots)
    ensures ScannedAsPath(p, keyDots)
    decreases |p.accessors|
  {
    var accs := p.accessors;
    if accs == [] {
      assert Render(p) == p.root;
      ScanPlain(p.root, 0, |p.root|, keyDots);
    } else {
      ReadablePrefix(p, keyDots);
      ScanPath(Prefix(p), keyDots);
      match accs[|accs| - 1]
      case Member(n) => ScanPathMember(p, n, keyDots);
      case Index(k) => ScanPathIndex(p, k, keyDots);
    }
  }

  lemma ScanPathMember(p: ModelPath, n: string, keyDots: bool)
    requires p.accessors != [] && p.accessors[|p.accessors| - 1] == Member(n)
    requires ReadablePath(Prefix(p), keyDots) && PlainSegment(n) && ScannedAsPath(Prefix(p), keyDots)
    ensures ScannedAsPath(p, keyDots)
  {
    var q := Prefix(p);
    RenderMember(p, n);
    PendingClosesAt(q, keyDots);
    CommittedPlusPending(q, keyDots);
    ScanMemberText(Render(q), PendingName(q), n, Render(p), keyDots);
  }

  lemma ScanPathIndex(p: ModelPath, k: string, keyDots: bool)
    requires p.accessors != [] && p.accessors[|p.accessors| - 1] == Index(k)
    requires ReadablePath(Prefix(p), keyDots) && BalancedKey(k) && (keyDots || DotFree(k))
    requires ScannedAsPath(Prefix(p), keyDots)
    ensures ScannedAsPath(p, keyDots)
  {
    var q := Prefix(p);
    var y := Render(p);
    RenderIndex(p, k);
    PendingClosesAt(q, keyDots);
    CommittedPlusPending(q, keyDots);
    ScanIndexText(Render(q), PendingName(q), k, y, keyDots);
    IndexCommitted(p, k);
    assert y[|y|..] == PendingName(p);
  }

  /** After a bracket step every token is committed, the key last. */
  lemma IndexCommitted(p: ModelPath, k: string)
    requires p.accessors != [] && p.accessors[|p.accessors| - 1] == Index(k)
    ensures CommittedTokens(p) == [Quote(p.root)] + AccessorTokens(Prefix(p).accessors) + [k]
    ensures PathTokens(p) == CommittedTokens(p) && PendingName(p) == ""
  {
  }

  /** After a dot step the open segment is the member's name; quoting it
      completes the tokens. */
  lemma MemberCommitted(p: ModelPath, n: string)
    requires p.accessors != [] && p.accessors[|p.accessors| - 1] == Member(n)
    ensures CommittedTokens(p) + [Quote(n)] == PathTokens(p) && PendingName(p) == n
  {
    assert AccessorTokens(p.accessors) == AccessorTokens(Prefix(p).accessors) + [Quote(n)];
  }

  lemma RenderMember(p: ModelPath, n: string)
    requires p.accessors != [] && p.accessors[|p.accessors| - 1] == Member(n)
    ensures Render(p) == Render(Prefix(p)) + ['.'] + n
    ensures Render(p)[|Render(Prefix(p))| + 1..] == n
  {
    assert Render(p) == Render(Prefix(p)) + ['.'] + n;
  }

  lemma RenderIndex(p: ModelPath, k: string)
    requires p.accessors != [] && p.accessors[|p.accessors| - 1] == Index(k)
    ensures Render(p) == Render(Prefix(p)) + ['['] + k + [']']
  {
    assert Render(p) == Render(Prefix(p)) + ['['] + k + [']'];
  }

  /** The last step adds its text at the end and its key as the last token. */
  lemma PathSnoc(p: ModelPath)
    requires p.accessors != []
    ensures Render(p) == Render(Prefix(p)) + RenderAccessor(p.accessors[|p.accessors| - 1])
    ensures AccessorTokens(p.accessors)
            == AccessorTokens(Prefix(p).accessors) + [AccessorToken(p.accessors[|p.accessors| - 1])]
    ensures PathTokens(p)[|p.accessors|] == AccessorToken(p.accessors[|p.accessors| - 1])
  {
  }

  /** The open name segment is empty exactly when the text ends in `]`. */
  lemma PendingClosesAt(q: ModelPath, keyDots: bool)
    requires ReadablePath(q, keyDots)
    requires Render(q)[Scan(Render(q), |Render(q)|, keyDots).start..] == PendingName(q)
    ensures |Render(q)| >= 1
    ensures PendingName(q) == "" <==> Render(q)[|Render(q)| - 1] == ']'
    ensures PendingName(q) == "" <==> Scan(Render(q), |Render(q)|, keyDots).start == |Render(q)|
  {
    var r := Render(q);
    var pn := PendingName(q);
    if q.accessors == [] {
      assert r == q.root;
    } else {
      var a := q.accessors[|q.accessors| - 1];
      assert ReadableAccessor(a, keyDots);
      assert r == Render(Prefix(q)) + RenderAccessor(a);
      if a.Member? {
        assert r[|r| - 1] == pn[|pn| - 1];
      }
    }
  }

  /** Closing the open segment completes the path's tokens. */
  lemma CommittedPlusPending(q: ModelPath, keyDots: bool)
    requires ReadablePath(q, keyDots)
    ensures CommittedTokens(q) + ClosedSegment(PendingName(q))
            == [Quote(q.root)] + AccessorTokens(q.accessors)
  {
    var accs := q.accessors;
    if accs != [] {
      var a := accs[|accs| - 1];
      assert ReadableAccessor(a, keyDots);
      assert AccessorTokens(accs) == AccessorTokens(Prefix(q).accessors) + [AccessorToken(a)];
    }
  }

  // ---------------------------------------------------------------------
  // What parseModel returns for a property path
  // ---------------------------------------------------------------------

  lemma FinishAfterMember(r: string, base: string, n: string, st: ScanState, tokens: seq<string>)
    requires r == base + ['.'] + n && n != [] && PlainSegment(n)
    requires st.start <= |r| && r[st.start..] == n && tokens == st.tokens + [Quote(n)]
    ensures Finish(r, st) == Success(ModelParseResult(base, tokens))
  {
    assert r[|r| - 1] == n[|n| - 1];
    assert r[..|base|] == base;
  }

  lemma FinishAfterIndex(r: string, base: string, k: string, st: ScanState, tokens: seq<string>)
    requires r == base + ['['] + k + [']']
    requires st.start == |r| && st.tokens == tokens && tokens != [] && tokens[|tokens| - 1] == k
    ensures Finish(r, st) == Success(ModelParseResult(base, tokens))
  {
    assert r[|r| - 1..] == "]";
    assert r[..|base|] == base;
  }

  /** After scanning a path with at least one step, the code after the loop
      cuts exactly the last step off the text. */
  lemma FinishPath(p: ModelPath, keyDots: bool)
    requires ReadablePath(p, keyDots) && p.accessors != [] && ScannedAsPath(p, keyDots)
    ensures Finish(Render(p), Scan(Render(p), |Render(p)|, keyDots))
            == Success(ModelParseResult(Render(Prefix(p)), PathTokens(p)))
  {
    ReadablePrefix(p, keyDots);
    match p.accessors[|p.accessors| - 1]
    case Member(n) => FinishPathMember(p, n, keyDots);
    case Index(k) => FinishPathIndex(p, k, keyDots);
  }

  lemma FinishPathMember(p: ModelPath, n: string, keyDots: bool)
    requires p.accessors != [] && p.accessors[|p.accessors| - 1] == Member(n)
    requires n != [] && PlainSegment(n) && ScannedAsPath(p, keyDots)
    ensures Finish(Render(p), Scan(Render(p), |Render(p)|, keyDots))
            == Success(ModelParseResult(Render(Prefix(p)), PathTokens(p)))
  {
    var r := Render(p);
    RenderMember(p, n);
    MemberCommitted(p, n);
    FinishAfterMember(r, Render(Prefix(p)), n, Scan(r, |r|, keyDots), PathTokens(p));
  }

  lemma FinishPathIndex(p: ModelPath, k: string, keyDots: bool)
    requires p.accessors != [] && p.accessors[|p.accessors| - 1] == Index(k)
    requires ScannedAsPath(p, keyDots)
    ensures Finish(Render(p), Scan(Render(p), |Render(p)|, keyDots))
            == Success(ModelParseResult(Render(Prefix(p)), PathTokens(p)))
  {
    var r := Render(p);
    RenderIndex(p, k);
    IndexCommitted(p, k);
    FinishAfterIndex(r, Render(Prefix(p)), k, Scan(r, |r|, keyDots), PathTokens(p));
  }

  /** A path with a step has a `.` or `[` in its text; a bare root has none. */
  lemma PathSyntax(p: ModelPath)
    requires PlainSegment(p.root)
    ensures HasPathSyntax(Render(p)) <==> p.accessors != []
  {
    if p.accessors == [] {
      assert Render(p) == p.root;
    } else {
      var q := Prefix(p);
      match p.accessors[|p.accessors| - 1]
      case Member(n) => {
        RenderMember(p, n);
        assert Render(p)[|Render(q)|] == '.';
      }
      case Index(k) => {
        RenderIndex(p, k);
        assert Render(p)[|Render(q)|] == '[';
      }
    }
  }

  /** parseModel on the text of a readable path: the base expression is the
      path without its last step, and the tokens are the quoted root followed
      by each step's key (quoted after a dot, raw inside brackets); a bare
      root is its own expression and only token. */
  lemma ParseWithPath(val: string, p: ModelPath, keyDots: bool)
    requires ReadablePath(p, keyDots) && Trim(val) == Render(p)
    ensures ParseWith(val, keyDots) == Success(ModelParseResult(BaseExpression(p), PathTokens(p)))
  {
    PathSyntax(p);
    if p.accessors == [] {
      assert Render(p) == p.root;
    } else {
      ScanPath(p, keyDots);
      FinishPath(p, keyDots);
    }
  }

  /** parseModel as written splits any path whose keys are free of dots. */
  lemma ParseModelPath(val: string, p: ModelPath)
    requires ReadablePath(p, false) && Trim(val) == Render(p)
    ensures ParsedModel(val) == Success(ModelParseResult(BaseExpression(p), PathTokens(p)))
  {
    ParseWithPath(val, p, false);
  }

  /** With dots inside brackets kept in the key, every well-formed path splits. */
  lemma ParseModelIntendedPath(val: string, p: ModelPath)
    requires ReadablePath(p, true) && Trim(val) == Render(p)
    ensures ParsedModelIntended(val) == Success(ModelParseResult(BaseExpression(p), PathTokens(p)))
  {
    ParseWithPath(val, p, true);
  }

  /** The split loses nothing: the base expression followed by the last token
      (in brackets, or after a dot and unquoted) is the trimmed input again. */
  lemma ParseModelRebuilds(val: string, p: ModelPath, keyDots: bool)
    requires ReadablePath(p, keyDots) && Trim(val) == Render(p) && p.accessors != []
    ensures var r := ParseWith(val, keyDots);
      && r.Success?
      && var last := r.value.tokens[|r.value.tokens| - 1];
      && (EndsWith(Trim(val), "]") ==> r.value.exp + "[" + last + "]" == Trim(val))
      && (!EndsWith(Trim(val), "]") ==> |last| >= 2 && r.value.exp + "." + Unquote(last) == Trim(val))
  {
    ParseWithPath(val, p, keyDots);
    ReadablePrefix(p, keyDots);
    match p.accessors[|p.accessors| - 1]
    case Member(n) => {
      RenderMember(p, n);
      MemberCommitted(p, n);
      RebuildMember(Render(Prefix(p)), n, Render(p));
    }
    case Index(k) => {
      RenderIndex(p, k);
      IndexCommitted(p, k);
      RebuildIndex(Render(Prefix(p)), k, Render(p));
    }
  }

  lemma RebuildMember(x: string, n: string, y: string)
    requires y == x + ['.'] + n && n != [] && PlainSegment(n)
    ensures !EndsWith(y, "]") && |Quote(n)| >= 2 && x + "." + Unquote(Quote(n)) == y
  {
    assert y[|y| - 1] == n[|n| - 1];
    assert y[|y| - 1..] == [y[|y| - 1]];
    UnquoteQuote(n);
  }

  lemma RebuildIndex(x: string, k: string, y: string)
    requires y == x + ['['] + k + [']']
    ensures EndsWith(y, "]") && x + "[" + k + "]" == y
  {
    assert y[|y| - 1..] == "]";
  }

  // ---------------------------------------------------------------------
  // The documented examples
  // ---------------------------------------------------------------------

  lemma OneStep(p: ModelPath)
    requires |p.accessors| == 1
    ensures Render(p) == p.root + RenderAccessor(p.accessors[0])
    ensures BaseExpression(p) == p.root
    ensures PathTokens(p) == [Quote(p.root), AccessorToken(p.accessors[0])]
  {
    assert p.accessors[..0] == [];
    assert Render(Prefix(p)) == p.root;
  }

  lemma TwoSteps(p: ModelPath)
    requires |p.accessors| == 2
    ensures Render(p) == p.root + RenderAccessor(p.accessors[0]) + RenderAccessor(p.accessors[1])
    ensures BaseExpression(p) == p.root + RenderAccessor(p.accessors[0])
    ensures PathTokens(p) == [Quote(p.root), AccessorToken(p.accessors[0]), AccessorToken(p.accessors[1])]
  {
    var q := Prefix(p);
    var a0, a1 := p.accessors[0], p.accessors[1];
    OneStep(q);
    assert q.accessors == [a0];
    assert Render(p) == Render(q) + RenderAccessor(a1);
    assert AccessorTokens(p.accessors) == AccessorTokens(q.accessors) + [AccessorToken(a1)];
    assert AccessorTokens(q.accessors) == [AccessorToken(a0)];
  }

  /** `p` is readable as written, and its text, base expression and tokens are the given ones. */
  predicate PathReads(p: ModelPath, text: string, exp: string, tokens: seq<string>)
  {
    ReadablePath(p, false) && Render(p) == text && BaseExpression(p) == exp && PathTokens(p) == tokens
  }

  lemma NamesArePlain()
    ensures PlainSegment("value") && PlainSegment("user") && PlainSegment("name")
    ensures PlainSegment("profile") && PlainSegment("key")
    ensures Quote("user") == "\"user\"" && Quote("name") == "\"name\"" && Quote("profile") == "\"profile\""
  {
  }

  lemma ExampleTexts()
    ensures "." + "name" == ".name" && "." + "profile" == ".profile"
    ensures "[" + "name" + "]" == "[name]" && "[" + "key" + "]" == "[key]"
    ensures "user" + ".name" == "user.name" && "user" + "[name]" == "user[name]"
    ensures "user" + ".profile" == "user.profile" && "user" + ".profile" + "[name]" == "user.profile[name]"
    ensures "user" + "[key]" == "user[key]" && "user" + "[key]" + ".name" == "user[key].name"
    ensures "user" + "[key]" + "[name]" == "user[key][name]"
  {
  }

  lemma UserNamePath()
    ensures PathReads(ModelPath("user", [Member("name")]), "user.name", "user", ["\"user\"", "\"name\""])
  {
    var p := ModelPath("user", [Member("name")]);
    NamesArePlain();
    ExampleTexts();
    OneStep(p);
    assert ReadableAccessor(p.accessors[0], false);
  }

  lemma UserIndexPath()
    ensures PathReads(ModelPath("user", [Index("name")]), "user[name]", "user", ["\"user\"", "name"])
  {
    var p := ModelPath("user", [Index("name")]);
    NamesArePlain();
    ExampleTexts();
    PlainKeyBalanced("name");
    OneStep(p);
    assert ReadableAccessor(p.accessors[0], false);
  }

  lemma UserProfileIndexPath()
    ensures PathReads(ModelPath("user", [Member("profile"), Index("name")]), "user.profile[name]",
                      "user.profile", ["\"user\"", "\"profile\"", "name"])
  {
    var p := ModelPath("user", [Member("profile"), Index("name")]);
    NamesArePlain();
    ExampleTexts();
    PlainKeyBalanced("name");
    TwoSteps(p);
    assert ReadableAccessor(p.accessors[0], false) && ReadableAccessor(p.accessors[1], false);
  }

  lemma UserKeyNamePath()
    ensures PathReads(ModelPath("user", [Index("key"), Member("name")]), "user[key].name",
                      "user[key]", ["\"user\"", "key", "\"name\""])
  {
    var p := ModelPath("user", [Index("key"), Member("name")]);
    NamesArePlain();
    ExampleTexts();
    PlainKeyBalanced("key");
    TwoSteps(p);
    assert ReadableAccessor(p.accessors[0], false) && ReadableAccessor(p.accessors[1], false);
  }

  lemma UserKeyIndexPath()
    ensures PathReads(ModelPath("user", [Index("key"), Index("name")]), "user[key][name]",
                      "user[key]", ["\"user\"", "key", "name"])
  {
    var p := ModelPath("user", [Index("key"), Index("name")]);
    NamesArePlain();
    ExampleTexts();
    PlainKeyBalanced("key");
    PlainKeyBalanced("name");
    TwoSteps(p);
    assert ReadableAccessor(p.accessors[0], false) && ReadableAccessor(p.accessors[1], false);
  }

  /** `value`: a bare name is its own expression and only token. */
  lemma ExampleBareName(val: string)
    requires Trim(val) == "value"
    ensures ParsedModel(val) == Success(ModelParseResult("value", ["value"]))
  {
    NamesArePlain();
    ParseModelPath(val, ModelPath("value", []));
  }

  /** `user.name`: exp `user`, tokens `"user"`, `"name"`. */
  lemma ExampleMember(val: string)
    requires Trim(val) == "user.name"
    ensures ParsedModel(val) == Success(ModelParseResult("user", ["\"user\"", "\"name\""]))
  {
    UserNamePath();
    ParseModelPath(val, ModelPath("user", [Member("name")]));
  }

  /** `user[name]`: exp `user`, tokens `"user"`, `name`. */
  lemma ExampleIndex(val: string)
    requires Trim(val) == "user[name]"
    ensures ParsedModel(val) == Success(ModelParseResult("user", ["\"user\"", "name"]))
  {
    UserIndexPath();
    ParseModelPath(val, ModelPath("user", [Index("name")]));
  }

  /** `user.profile[name]`: exp `user.profile`, tokens `"user"`, `"profile"`, `name`. */
  lemma ExampleMemberIndex(val: string)
    requires Trim(val) == "user.profile[name]"
    ensures ParsedModel(val) == Success(ModelParseResult("user.profile", ["\"user\"", "\"profile\"", "name"]))
  {
    UserProfileIndexPath();
    ParseModelPath(val, ModelPath("user", [Member("profile"), Index("name")]));
  }

  /** `user[key].name`: exp `user[key]`, tokens `"user"`, `key`, `"name"`. */
  lemma ExampleIndexMember(val: string)
    requires Trim(val) == "user[key].name"
    ensures ParsedModel(val) == Success(ModelParseResult("user[key]", ["\"user\"", "key", "\"name\""]))
  {
    UserKeyNamePath();
    ParseModelPath(val, ModelPath("user", [Index("key"), Member("name")]));
  }

  /** `user[key][name]`: exp `user[key]`, tokens `"user"`, `key`, `name`. */
  lemma ExampleIndexIndex(val: string)
    requires Trim(val) == "user[key][name]"
    ensures ParsedModel(val) == Success(ModelParseResult("user[key]", ["\"user\"", "key", "name"]))
  {
    UserKeyIndexPath();
    ParseModelPath(val, ModelPath("user", [Index("key"), Index("name")]));
  }

  // ---------------------------------------------------------------------
  // A dot inside brackets
  // ---------------------------------------------------------------------

  /** `y` reads `a[b.c]` for three characters that are not `.`, `[` or `]`. */
  predicate DottedKeyText(y: string)
  {
    && |y| == 6 && !IsPathChar(y[0]) && y[1] == '[' && !IsPathChar(y[2])
    && y[3] == '.' && !IsPathChar(y[4]) && y[5] == ']'
  }

  /** As written, the dot inside the bracket closes the segment `b`, and the
      bracket closes on `c` alone. */
  lemma ScanDottedKey(y: string)
    requires DottedKeyText(y)
    ensures Scan(y, 6, false) == ScanState([Quote(y[..1]), Quote(y[2..3]), y[4..5]], 6, 0)
  {
    assert Scan(y, 1, false) == ScanState([], 0, 0);
    assert Scan(y, 2, false) == ScanState([Quote(y[..1])], 2, 1);
    assert Scan(y, 3, false) == ScanState([Quote(y[..1])], 2, 1);
    assert Scan(y, 4, false) == ScanState([Quote(y[..1]), Quote(y[2..3])], 4, 1);
    assert Scan(y, 5, false) == ScanState([Quote(y[..1]), Quote(y[2..3])], 4, 1);
  }

  /** With dots kept in the key, the bracket closes on the whole key `b.c`. */
  lemma ScanDottedKeyIntended(y: string)
    requires DottedKeyText(y)
    ensures Scan(y, 6, true) == ScanState([Quote(y[..1]), y[2..5]], 6, 0)
  {
    assert Scan(y, 1, true) == ScanState([], 0, 0);
    assert Scan(y, 2, true) == ScanState([Quote(y[..1])], 2, 1);
    assert Scan(y, 3, true) == ScanState([Quote(y[..1])], 2, 1);
    assert Scan(y, 4, true) == ScanState([Quote(y[..1])], 2, 1);
    assert Scan(y, 5, true) == ScanState([Quote(y[..1])], 2, 1);
  }

  /** As written, parseModel splits the key of `a[b.c]`: `exp` is `a[b` and
      the tokens are `"a"`, `"b"`, `c`, so the assignment code writes `c` on
      `a[b` instead of `b.c` on `a`. */
  lemma ParseModelSplitsDottedKey(val: string)
    requires DottedKeyText(Trim(val))
    ensures var y := Trim(val);
      ParsedModel(val) == Success(ModelParseResult(y[..3], [Quote(y[..1]), Quote(y[2..3]), y[4..5]]))
  {
    var y := Trim(val);
    assert y[1] == '[';
    ScanDottedKey(y);
    FinishDottedKey(y, [Quote(y[..1]), Quote(y[2..3]), y[4..5]]);
  }

  /** After the scan of `a[b.c]`, the code after the loop cuts the last token
      and its brackets off the end. */
  lemma FinishDottedKey(y: string, tokens: seq<string>)
    requires DottedKeyText(y) && tokens != [] && |tokens[|tokens| - 1]| + 2 <= 6
    ensures Finish(y, ScanState(tokens, 6, 0))
            == Success(ModelParseResult(y[..6 - |tokens[|tokens| - 1]| - 2], tokens))
  {
    assert y[|y| - 1..] == "]";
  }

  /** With dots kept in the key, `a[b.c]` splits into `a` and the whole key
      `b.c`, as the nested cases the parser documents need. */
  lemma ParseModelIntendedKeepsDottedKey(val: string)
    requires DottedKeyText(Trim(val))
    ensures var y := Trim(val);
      ParsedModelIntended(val) == Success(ModelParseResult(y[..1], [Quote(y[..1]), y[2..5]]))
  {
    var y := Trim(val);
    assert y[1] == '[';
    ScanDottedKeyIntended(y);
    FinishDottedKey(y, [Quote(y[..1]), y[2..5]]);
  }

  // ---------------------------------------------------------------------
  // genAssignmentCode
  // ---------------------------------------------------------------------

  /** genAssignmentCode(value, assignment): the code that stores `assignment`
      through the path `value`, under the given reading of dots in keys
      (`keyDots` false is the code as written).  An exception from
      parseModel propagates. */
  function GenAssignmentCode(value: string, assignment: string, keyDots: bool): (r: Result<string, JsError>)
    ensures r.Failure? <==> ParseWith(value, keyDots).Failure?
  {
    match ParseWith(value, keyDots)
    case Failure(e) => Failure(e)
    case Success(res) =>
      if |res.tokens| == 1 then Success(value + "=" + assignment)
      else if StartsWith(value, "state.") then Success(SetStateCall(res.tokens[1..], assignment))
      else Success(SetCall(res.exp, res.tokens[|res.tokens| - 1], assignment))
  }

  /** `$set(state, [k1,k2,...], assignment)` */
  function SetStateCall(keys: seq<string>, assignment: string): string
  {
    "$set(state, [" + Join(keys, ",") + "], " + assignment + ")"
  }

  /** `$set(obj, key, assignment)` */
  function SetCall(obj: string, key: string, assignment: string): string
  {
    "$set(" + obj + ", " + key + ", " + assignment + ")"
  }

  /** A bare name is assigned directly; the text is used untrimmed. */
  lemma AssignBareName(value: string, assignment: string, keyDots: bool)
    requires !HasPathSyntax(Trim(value))
    ensures GenAssignmentCode(value, assignment, keyDots) == Success(value + "=" + assignment)
  {
  }

  /** A path with at least one step is written with `$set` on the object the
      last step reads from, with the last step's key. */
  lemma AssignThroughParent(value: string, assignment: string, p: ModelPath, keyDots: bool)
    requires ReadablePath(p, keyDots) && Trim(value) == Render(p) && p.accessors != []
    requires !StartsWith(value, "state.")
    ensures GenAssignmentCode(value, assignment, keyDots)
            == Success(SetCall(Render(Prefix(p)), AccessorToken(p.accessors[|p.accessors| - 1]), assignment))
  {
    ParseWithPath(value, p, keyDots);
    PathSnoc(p);
    AssignFromParse(value, assignment, keyDots, ModelParseResult(BaseExpression(p), PathTokens(p)));
  }

  /** A path into `state` is written with one `$set` on `state` that lists
      every key after the root. */
  lemma AssignThroughState(value: string, assignment: string, p: ModelPath, keyDots: bool)
    requires ReadablePath(p, keyDots) && Trim(value) == Render(p) && p.accessors != []
    requires StartsWith(value, "state.")
    ensures GenAssignmentCode(value, assignment, keyDots)
            == Success(SetStateCall(AccessorTokens(p.accessors), assignment))
  {
    ParseWithPath(value, p, keyDots);
    assert PathTokens(p)[1..] == AccessorTokens(p.accessors);
    AssignFromParse(value, assignment, keyDots, ModelParseResult(BaseExpression(p), PathTokens(p)));
  }

  /** With two tokens or more, the code is a `$set` call. */
  lemma AssignFromParse(value: string, assignment: string, keyDots: bool, res: ModelParseResult)
    requires ParseWith(value, keyDots) == Success(res) && |res.tokens| >= 2
    ensures StartsWith(value, "state.") ==>
      GenAssignmentCode(value, assignment, keyDots) == Success(SetStateCall(res.tokens[1..], assignment))
    ensures !StartsWith(value, "state.") ==>
      GenAssignmentCode(value, assignment, keyDots) == Success(SetCall(res.exp, res.tokens[|res.tokens| - 1], assignment))
  {
  }

  /** A lone `[` leaves parseModel with no token, so it throws and so does
      genAssignmentCode. */
  lemma AssignLoneBracketThrows(value: string, assignment: string, keyDots: bool)
    requires Trim(value) == "["
    ensures ParseWith(value, keyDots).Failure?
    ensures GenAssignmentCode(value, assignment, keyDots).Failure?
  {
    var y := Trim(value);
    assert y[0] == '[' && |y| == 1;
    assert Scan(y, 1, keyDots) == Step(Scan(y, 0, keyDots), y, 0, keyDots);
  }

  // ---------------------------------------------------------------------
  // genComponentModel
  // ---------------------------------------------------------------------

  /** The callback's parameter. */
  const BaseValueExpression := "$$v"

  /** The parameter, trimmed when it is a string. */
  const TrimmedValue := "(typeof $$v === 'string'? $$v.trim(): $$v)"

  /** The expression the callback stores: the parameter, trimmed when it is
      a string if `trim` is set, converted with `_n` if `number` is set. */
  function ValueExpression(number: bool, trim: bool): (e: string)
    ensures !number && !trim ==> e == BaseValueExpression
    ensures trim && !number ==> e == "(typeof $$v === 'string'? $$v.trim(): $$v)"
    ensures number ==> e == "_n(" + ValueExpression(false, trim) + ")"
  {
    var trimmed := if trim then TrimmedValue else BaseValueExpression;
    if number then "_n(" + trimmed + ")" else trimmed
  }

  /** What genComponentModel records on the element for `r-model="value"`,
      or the exception generating the assignment throws. */
  function ComponentModel(value: string, number: bool, trim: bool): (r: Result<ModelBinding, JsError>)
    ensures r.Failure? <==> ParsedModel(value).Failure?
    ensures r.Success? ==> r.value.value == "(" + value + ")" && r.value.expression == Quote(value)
    ensures r.Success? ==>
      r.value.callback == "function (" + BaseValueExpression + ") {"
                          + GenAssignmentCode(value, ValueExpression(number, trim), false).value + "}"
  {
    match GenAssignmentCode(value, ValueExpression(number, trim), false)
    case Failure(e) => Failure(e)
    case Success(assignment) =>
      Success(ModelBinding("(" + value + ")", Quote(value),
                           "function (" + BaseValueExpression + ") {" + assignment + "}"))
  }

  /** genComponentModel(el, value, modifiers): sets `el.model`; an absent
      modifier is false.  The exception parseModel may throw is returned. */
  method GenComponentModel(el: Element, value: string, number: bool, trim: bool) returns (thrown: Option<JsError>)
    modifies el`model
    ensures thrown.Some? <==> ParsedModel(value).Failure?
    ensures thrown.None? ==> el.model == Some(ComponentModel(value, number, trim).value)
    ensures thrown.Some? ==> el.model == old(el.model)
  {
    var valueExpression := BaseValueExpression;
    if trim {
      valueExpression := TrimmedValue;
    }
    if number {
      valueExpression := "_n(" + valueExpression + ")";
    }
    var assignment := GenAssignmentCode(value, valueExpression, false);
    if assignment.Failure? {
      return Some(assignment.error);
    }
    el.model := Some(ModelBinding("(" + value + ")", "\"" + value + "\"",
                                  "function (" + BaseValueExpression + ") {" + assignment.value + "}"));
    thrown := None;
  }
}
