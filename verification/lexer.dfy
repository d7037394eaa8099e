/**
 * Token-level rules of the Lua-subset grammar: the skipper for blank space and
 * line comments, the comma separator, and the boolean, string, numeral,
 * identifier and dotted-name tokens. Every token rule skips the insignificant
 * text that follows its lexeme, never the text before it.
 */
module Lexer {
  import opened LuaAst

  /** Outcome of one grammar rule: no match, or a value and the unconsumed suffix. */
  datatype ParseResult<+T> = NoParse | Parsed(value: T, rest: string)

  /** `rest` is a suffix of `s`. */
  predicate IsSuffix(rest: string, s: string) {
    |rest| <= |s| && s[|s| - |rest|..] == rest
  }

  /** A successful rule consumed at least one character of its input. */
  predicate Advances<T>(s: string, r: ParseResult<T>) {
    r.Parsed? ==> |r.rest| < |s|
  }

  predicate StartsWith(s: string, t: string) {
    |t| <= |s| && forall i :: 0 <= i < |t| ==> s[i] == t[i]
  }

  /** A string whose first character is `c` starts with `[c]`. */
  lemma OpensWith(s: string, c: char)
    requires |s| > 0 && s[0] == c
    ensures StartsWith(s, [c])
  {
  }

  /** Dropping one more character from a suffix. */
  lemma DropOne(s: string, n: nat)
    requires n < |s|
    ensures s[n..][0] == s[n] && s[n..][1..] == s[n + 1..]
  {
  }

  // Character classes (ASCII, as nom's `multispace0`, `alpha1` and `alphanumeric1` use them)

  predicate IsSpace(c: char) { c == ' ' || c == '\t' || c == '\r' || c == '\n' }

  predicate NotNewline(c: char) { c != '\r' && c != '\n' }

  predicate IsAlpha(c: char) { 'a' <= c <= 'z' || 'A' <= c <= 'Z' }

  predicate IsDigit(c: char) { '0' <= c <= '9' }

  predicate IsIdentStart(c: char) { IsAlpha(c) || c == '_' }

  predicate IsWordChar(c: char) { IsAlpha(c) || IsDigit(c) || c == '_' }

  predicate IsNumChar(c: char) { c == '-' || c == '.' || IsDigit(c) }

  /** Characters allowed inside a string literal: anything but `"` and `\`. */
  predicate IsStrChar(c: char) { c != '"' && c != '\\' }

  /** Length of the longest prefix of `s` whose characters all satisfy `p`. */
  function Span(s: string, p: char -> bool): (n: nat)
    ensures n <= |s|
    ensures forall i :: 0 <= i < n ==> p(s[i])
    ensures n < |s| ==> !p(s[n])
  {
    if s == [] || !p(s[0]) then 0 else 1 + Span(s[1..], p)
  }

  /** Index of the first `c` in `s`, or `|s|` when there is none. */
  function FindChar(s: string, c: char): (n: nat)
    ensures n <= |s|
    ensures n < |s| ==> s[n] == c
  {
    if s == [] then 0 else if s[0] == c then 0 else 1 + FindChar(s[1..], c)
  }

  /** No `c` comes before the position `FindChar` reports. */
  lemma {:induction false} FindCharBefore(s: string, c: char)
    ensures forall i :: 0 <= i < FindChar(s, c) ==> s[i] != c
  {
    if s != [] && s[0] != c {
      FindCharBefore(s[1..], c);
    }
  }

  // ---------------------------------------------------------------------------
  // Lexical skipper

  /**
   * A line comment the skipper recognises: `--` followed by at least one
   * character that is not a line break. An empty comment (`--` right before a
   * line break or the end of the text) is not skipped.
   */
  predicate IsCommentStart(s: string) {
    |s| >= 3 && s[0] == '-' && s[1] == '-' && NotNewline(s[2])
  }

  /** A comment the skipper recognises starts at index `i` of `s`. */
  predicate CommentAt(s: string, i: nat) {
    i + 3 <= |s| && s[i] == '-' && s[i + 1] == '-' && NotNewline(s[i + 2])
  }

  /** The first index at or after `i` that does not hold blank space. */
  function SpacesFrom(s: string, i: nat): (j: nat)
    requires i <= |s|
    ensures i <= j <= |s|
    ensures j == |s| || !IsSpace(s[j])
    decreases |s| - i
  {
    if i == |s| || !IsSpace(s[i]) then i else SpacesFrom(s, i + 1)
  }

  /** The first index at or after `i` that holds a line break, or the end. */
  function LineEnd(s: string, i: nat): (j: nat)
    requires i <= |s|
    ensures i <= j <= |s|
    decreases |s| - i
  {
    if i == |s| || !NotNewline(s[i]) then i else LineEnd(s, i + 1)
  }

  /**
   * Where the skipper stops when started at `i`: past blank space, then past
   * a comment and round again, until neither follows.
   */
  function SkipFrom(s: string, i: nat): (j: nat)
    requires i <= |s|
    ensures i <= j <= |s|
    ensures j == |s| || !IsSpace(s[j])
    ensures !CommentAt(s, j)
    decreases |s| - i
  {
    var n := SpacesFrom(s, i);
    if CommentAt(s, n) then SkipFrom(s, LineEnd(s, n + 2)) else n
  }

  /**
   * Skips blank space and line comments until neither is left. It never fails,
   * and what it leaves starts with neither blank space nor a comment.
   */
  function Whitespace(s: string): (r: string)
    ensures |r| <= |s|
    ensures r == [] || !IsSpace(r[0])
    ensures !IsCommentStart(r)
  {
    var j := SkipFrom(s, 0);
    var r := Suffix(s, j);
    SkippedShape(s, j, r);
    r
  }

  /** Where the skipper stops there is neither blank space nor a comment. */
  lemma SkippedShape(s: string, j: nat, r: string)
    requires j <= |s| && j == SkipFrom(s, 0) && r == Suffix(s, j)
    ensures r == [] || !IsSpace(r[0])
    ensures !IsCommentStart(r)
  {
    SuffixIndex(s, j);
    assert |r| >= 1 ==> r[0] == s[j];
    assert |r| >= 3 ==> r[1] == s[j + 1] && r[2] == s[j + 2];
  }

  /** `s` without its first `j` characters. */
  function Suffix(s: string, j: nat): (r: string)
    requires j <= |s|
    ensures |r| == |s| - j
    decreases j
  {
    if j == 0 then s else Suffix(s[1..], j - 1)
  }

  /** What `Suffix` leaves, index by index. */
  lemma {:induction false} SuffixIndex(s: string, j: nat)
    requires j <= |s|
    ensures forall i :: 0 <= i < |s| - j ==> Suffix(s, j)[i] == s[j + i]
    decreases j
  {
    if j > 0 {
      SuffixIndex(s[1..], j - 1);
    }
  }

  /** The skipper only removes text from the front: what it leaves is a suffix of its input. */
  lemma WhitespaceSuffix(s: string)
    ensures IsSuffix(Whitespace(s), s)
  {
    var r := Whitespace(s);
    SuffixIndex(s, SkipFrom(s, 0));
    assert s[|s| - |r|..] == r;
  }

  /** Text that starts with neither blank space nor a comment is left untouched. */
  lemma WhitespaceFixed(s: string)
    requires s == [] || !IsSpace(s[0])
    requires !IsCommentStart(s)
    ensures Whitespace(s) == s
  {
    assert SpacesFrom(s, 0) == 0;
    assert !CommentAt(s, 0);
  }

  /** Running the skipper on its own remainder consumes nothing. */
  lemma WhitespaceIdempotent(s: string)
    ensures Whitespace(Whitespace(s)) == Whitespace(s)
  {
    WhitespaceFixed(Whitespace(s));
  }

  /**
   * The skipper as the source writes it: a loop that strips blank space, then
   * at most one comment, and stops once an iteration consumed nothing. The
   * remaining input is `s[i..]`.
   */
  method SkipWhitespace(s: string) returns (r: string)
    ensures r == Whitespace(s)
  {
    var i := 0;
    while true
      invariant i <= |s| && SkipFrom(s, i) == SkipFrom(s, 0)
      decreases |s| - i
    {
      var n := SpacesFrom(s, i);
      var i1 := if CommentAt(s, n) then LineEnd(s, n + 2) else n;
      if i1 == i {
        r := s[i..];
        SuffixIndex(s, i);
        assert r == Suffix(s, i);
        return;
      }
      if !CommentAt(s, n) {
        assert SpacesFrom(s, n) == n;
      }
      i := i1;
    }
  }

  /** Started inside `p + t`, the blank-space scan is the scan of `t`, shifted by `|p|`. */
  lemma {:induction false} SpacesShift(p: string, t: string, i: nat)
    requires i <= |t|
    ensures SpacesFrom(p + t, |p| + i) == |p| + SpacesFrom(t, i)
    decreases |t| - i
  {
    if i < |t| {
      assert (p + t)[|p| + i] == t[i];
      if IsSpace(t[i]) {
        SpacesShift(p, t, i + 1);
      }
    }
  }

  lemma {:induction false} LineEndShift(p: string, t: string, i: nat)
    requires i <= |t|
    ensures LineEnd(p + t, |p| + i) == |p| + LineEnd(t, i)
    decreases |t| - i
  {
    if i < |t| {
      assert (p + t)[|p| + i] == t[i];
      if NotNewline(t[i]) {
        LineEndShift(p, t, i + 1);
      }
    }
  }

  lemma CommentShift(p: string, t: string, i: nat)
    requires i <= |t|
    ensures CommentAt(p + t, |p| + i) == CommentAt(t, i)
  {
    if i + 3 <= |t| {
      assert (p + t)[|p| + i] == t[i];
      assert (p + t)[|p| + i + 1] == t[i + 1];
      assert (p + t)[|p| + i + 2] == t[i + 2];
    }
  }

  /** Started inside `p + t`, the skipper behaves as on `t`, shifted by `|p|`. */
  lemma {:induction false} SkipShift(p: string, t: string, i: nat)
    requires i <= |t|
    ensures SkipFrom(p + t, |p| + i) == |p| + SkipFrom(t, i)
    decreases |t| - i
  {
    SpacesShift(p, t, i);
    var n := SpacesFrom(t, i);
    CommentShift(p, t, n);
    if CommentAt(t, n) {
      LineEndShift(p, t, n + 2);
      SkipShift(p, t, LineEnd(t, n + 2));
    }
  }

  lemma SuffixShift(p: string, t: string, j: nat)
    requires j <= |t|
    ensures Suffix(p + t, |p| + j) == Suffix(t, j)
  {
    var a := Suffix(p + t, |p| + j);
    var b := Suffix(t, j);
    SuffixIndex(p + t, |p| + j);
    SuffixIndex(t, j);
    assert forall i :: 0 <= i < |a| ==> a[i] == (p + t)[|p| + j + i] == b[i];
  }

  /** When the skipper passes over all of `p`, what it leaves of `p + t` is what it leaves of `t`. */
  lemma SkipOverPrefix(p: string, t: string)
    requires SkipFrom(p + t, 0) == SkipFrom(p + t, |p|)
    ensures Whitespace(p + t) == Whitespace(t)
  {
    SkipShift(p, t, 0);
    SuffixShift(p, t, SkipFrom(t, 0));
  }

  /** A blank space is skipped: only what follows it matters. */
  lemma SpaceSkipped(c: char, t: string)
    requires IsSpace(c)
    ensures Whitespace([c] + t) == Whitespace(t)
  {
    var s := [c] + t;
    assert SpacesFrom(s, 0) == SpacesFrom(s, 1);
    SkipOverPrefix([c], t);
  }

  /** The scan for the line end runs over text without line breaks and stops at the first break. */
  lemma {:induction false} LineEndOver(s: string, i: nat, k: nat)
    requires i <= k <= |s|
    requires forall j :: i <= j < k ==> NotNewline(s[j])
    requires k == |s| || !NotNewline(s[k])
    ensures LineEnd(s, i) == k
    decreases k - i
  {
    if i < k {
      LineEndOver(s, i + 1, k);
    }
  }

  /**
   * A comment is skipped: `--`, a non-empty body without line breaks, and
   * then the end of the text or a line break.
   */
  lemma CommentSkipped(c: string, t: string)
    requires |c| >= 1 && forall i :: 0 <= i < |c| ==> NotNewline(c[i])
    requires t == [] || !NotNewline(t[0])
    ensures Whitespace("--" + c + t) == Whitespace(t)
  {
    var p := "--" + c;
    var s := p + t;
    assert forall j :: 2 <= j < |p| ==> s[j] == c[j - 2];
    assert |p| < |s| ==> s[|p|] == t[0];
    LineEndOver(s, 2, |p|);
    assert SpacesFrom(s, 0) == 0 && CommentAt(s, 0);
    assert SpacesFrom(s, |p|) == SpacesFrom(s, LineEnd(s, 2));
    SkipOverPrefix(p, t);
  }

  /** Text that starts with a blank and then a character that is neither blank nor `-` loses just the blank. */
  lemma OneSpace(c: char, t: string)
    requires IsSpace(c) && |t| > 0 && !IsSpace(t[0]) && t[0] != '-'
    ensures Whitespace([c] + t) == t
  {
    SpaceSkipped(c, t);
    WhitespaceFixed(t);
  }

  /** An empty comment stops the skipper: `--` and the line break after it stay. */
  lemma EmptyCommentNotSkipped(t: string)
    ensures Whitespace("--\n" + t) == "--\n" + t
  {
    WhitespaceFixed("--\n" + t);
  }

  /** `,` followed by skipped text. */
  function Commaspace(s: string): (r: ParseResult<()>)
    ensures Advances(s, r)
    ensures r.Parsed? <==> StartsWith(s, ",")
  {
    if |s| > 0 && s[0] == ',' then Parsed((), Whitespace(s[1..])) else NoParse
  }

  // ---------------------------------------------------------------------------
  // Literal tokens

  /** `true` or `false`, with no check that the word ends there. */
  function ParseBool(s: string): (r: ParseResult<LuaObject>)
    ensures Advances(s, r)
    ensures r.Parsed? <==> StartsWith(s, "true") || StartsWith(s, "false")
    ensures r.Parsed? ==> r.value == Bool(StartsWith(s, "true"))
  {
    if StartsWith(s, "true") then Parsed(Bool(true), Whitespace(s[4..]))
    else if StartsWith(s, "false") then Parsed(Bool(false), Whitespace(s[5..]))
    else NoParse
  }

  function BoolText(b: bool): string {
    if b then "true" else "false"
  }

  /** A boolean token yields its value and consumes the word plus the skipped text after it. */
  lemma BoolToken(b: bool, t: string)
    ensures ParseBool(BoolText(b) + t) == Parsed(Bool(b), Whitespace(t))
  {
    var s := BoolText(b) + t;
    assert StartsWith(s, BoolText(b));
    if b {
      assert s[4..] == t;
    } else {
      assert !StartsWith(s, "true") by { assert s[1] == 'a'; }
      assert s[5..] == t;
    }
  }

  /**
   * `"` body `"`, where the body is the longest run without `"` or `\`, taken
   * verbatim. A backslash in the body makes the rule fail.
   */
  function ParseStr(s: string): (r: ParseResult<LuaObject>)
    ensures Advances(s, r)
    ensures r.Parsed? ==> r.value.Str? && forall i :: 0 <= i < |r.value.s| ==> IsStrChar(r.value.s[i])
    ensures r.Parsed? ==> StartsWith(s, ['"'] + r.value.s + ['"']) && r.rest == Whitespace(s[|r.value.s| + 2..])
  {
    if |s| > 0 && s[0] == '"' then
      var n := Span(s[1..], IsStrChar);
      if 1 + n < |s| && s[1 + n] == '"' then
        var body := s[1..1 + n];
        StrMatch(s, n, body);
        Parsed(Str(body), Whitespace(s[n + 2..]))
      else NoParse
    else NoParse
  }

  /** What a string token matched: a body of string characters between the quotes. */
  lemma StrMatch(s: string, n: nat, body: string)
    requires 1 + n < |s| && s[0] == '"' && s[1 + n] == '"'
    requires n == Span(s[1..], IsStrChar) && body == s[1..1 + n]
    ensures |body| == n
    ensures forall i :: 0 <= i < |body| ==> IsStrChar(body[i])
    ensures StartsWith(s, ['"'] + body + ['"'])
  {
    forall i | 0 <= i < n ensures IsStrChar(body[i]) {
      assert body[i] == s[1..][i];
    }
    QuotedPrefix(s, n);
  }

  /** The text from the opening quote to the closing one, quotes included. */
  lemma QuotedPrefix(s: string, n: nat)
    requires 1 + n < |s| && s[0] == '"' && s[1 + n] == '"'
    ensures StartsWith(s, ['"'] + s[1..1 + n] + ['"'])
  {
    var q := ['"'] + s[1..1 + n] + ['"'];
    assert |q| == n + 2;
    forall i | 0 <= i < n + 2 ensures s[i] == q[i] {
      if 0 < i < n + 1 {
        assert q[i] == s[1..1 + n][i - 1];
      }
    }
  }

  /** A quoted body without `"` or `\` reads back as exactly that body. */
  lemma StrToken(body: string, t: string)
    requires forall i :: 0 <= i < |body| ==> IsStrChar(body[i])
    ensures ParseStr(['"'] + body + ['"'] + t) == Parsed(Str(body), Whitespace(t))
  {
    var s := ['"'] + body + ['"'] + t;
    SpanOfPrefix(body, ['"'] + t, IsStrChar);
    assert s[1..] == body + (['"'] + t);
    assert s[1..1 + |body|] == body;
    assert s[|body| + 2..] == t;
  }

  /** The span over `u + v` stops at the end of `u` when `u` is all `p` and `v` starts outside `p`. */
  lemma {:induction false} SpanOfPrefix(u: string, v: string, p: char -> bool)
    requires forall i :: 0 <= i < |u| ==> p(u[i])
    requires v == [] || !p(v[0])
    ensures Span(u + v, p) == |u|
  {
    if u != [] {
      assert (u + v)[1..] == u[1..] + v;
      SpanOfPrefix(u[1..], v, p);
    } else {
      assert u + v == v;
    }
  }

  // ---------------------------------------------------------------------------
  // Numerals

  const I64Min: int := -0x8000_0000_0000_0000
  const I64Max: int := 0x7FFF_FFFF_FFFF_FFFF

  predicate AllDigits(t: string) {
    forall i :: 0 <= i < |t| ==> IsDigit(t[i])
  }

  /** The decimal value of a run of digits. */
  function DigitsValue(t: string): nat
    requires AllDigits(t)
  {
    if t == [] then 0 else 10 * DigitsValue(t[..|t| - 1]) + (t[|t| - 1] as int - '0' as int)
  }

  /** Text of the form `i64::from_str` reads, range aside: an optional `-` and at least one digit. */
  predicate IsIntText(t: string) {
    (|t| >= 1 && AllDigits(t)) || (|t| >= 2 && t[0] == '-' && AllDigits(t[1..]))
  }

  function IntTextValue(t: string): int
    requires IsIntText(t)
  {
    if t[0] == '-' then -(DigitsValue(t[1..]) as int) else DigitsValue(t)
  }

  /** `i64::from_str` succeeds on `t`. */
  predicate IsI64Text(t: string) {
    IsIntText(t) && I64Min <= IntTextValue(t) <= I64Max
  }

  function CountChar(t: string, c: char): nat {
    if t == [] then 0 else (if t[0] == c then 1 else 0) + CountChar(t[1..], c)
  }

  /**
   * `f64::from_str` succeeds on `t`, for text made of `-`, `.` and digits: an
   * optional `-`, then digits with at most one `.`, and at least one digit.
   */
  predicate IsFloatText(t: string) {
    var u := if |t| > 0 && t[0] == '-' then t[1..] else t;
    && CountChar(u, '.') <= 1
    && CountChar(u, '.') < |u|
    && forall i :: 0 <= i < |u| ==> IsDigit(u[i]) || u[i] == '.'
  }

  /**
   * The longest run of `-`, `.` and digits: an `Int` when `i64::from_str`
   * accepts it, else a `Float` when `f64::from_str` does, else no parse (the
   * source panics there).
   */
  function ParseNum(s: string): (r: ParseResult<LuaObject>)
    ensures Advances(s, r)
    ensures r.Parsed? <==> Span(s, IsNumChar) > 0 && (IsI64Text(s[..Span(s, IsNumChar)]) || IsFloatText(s[..Span(s, IsNumChar)]))
    ensures r.Parsed? ==> r.value.Int? || r.value.Float?
    ensures r.Parsed? && r.value.Int? ==> I64Min <= r.value.i <= I64Max
    ensures r.Parsed? && r.value.Float? ==> !IsI64Text(r.value.text) && IsFloatText(r.value.text)
    ensures var t := s[..Span(s, IsNumChar)];
      r.Parsed? ==> (r.value.Int? <==> IsI64Text(t)) && r.rest == Whitespace(s[|t|..])
    ensures var t := s[..Span(s, IsNumChar)];
      r.Parsed? && r.value.Int? ==> IsI64Text(t) && r.value.i == IntTextValue(t)
    ensures var t := s[..Span(s, IsNumChar)];
      r.Parsed? && r.value.Float? ==> r.value.text == t
  {
    var n := Span(s, IsNumChar);
    if n == 0 then NoParse
    else
      var t := s[..n];
      if IsI64Text(t) then Parsed(Int(IntTextValue(t)), Whitespace(s[n..]))
      else if IsFloatText(t) then Parsed(Float(t), Whitespace(s[n..]))
      else NoParse
  }

  /** Decimal digits of a natural number, most significant first, without leading zeros. */
  function NatText(n: nat): (t: string)
    ensures |t| >= 1 && AllDigits(t)
    ensures DigitsValue(t) == n
  {
    if n < 10 then [('0' as int + n) as char]
    else
      var t := NatText(n / 10) + [('0' as int + n % 10) as char];
      assert t[..|t| - 1] == NatText(n / 10);
      t
  }

  /** How the integer `i` is written as a numeral. */
  function IntText(i: int): string {
    if i < 0 then "-" + NatText(-i) else NatText(i)
  }

  /** Every 64-bit integer, written in decimal, reads back as an `Int` of the same value. */
  lemma IntToken(i: int, t: string)
    requires I64Min <= i <= I64Max
    requires t == [] || !IsNumChar(t[0])
    ensures ParseNum(IntText(i) + t) == Parsed(Int(i), Whitespace(t))
  {
    var w := IntText(i);
    IntTextShape(i);
    SpanOfPrefix(w, t, IsNumChar);
    assert (w + t)[..|w|] == w;
    assert (w + t)[|w|..] == t;
  }

  /** `IntText(i)` is integer text made of numeral characters, with value `i`. */
  lemma IntTextShape(i: int)
    ensures forall k :: 0 <= k < |IntText(i)| ==> IsNumChar(IntText(i)[k])
    ensures IsIntText(IntText(i)) && IntTextValue(IntText(i)) == i
  {
    var d := NatText(if i < 0 then -i else i);
    assert forall k :: 0 <= k < |d| ==> IsNumChar(d[k]);
    if i < 0 {
      var w := "-" + d;
      assert w[1..] == d;
      assert forall k :: 1 <= k < |w| ==> w[k] == d[k - 1];
    }
  }

  // ---------------------------------------------------------------------------
  // Names

  /** Words the identifier rule refuses. */
  const Reserved: set<string> := {"return", "true", "false", "if", "then", "else", "end"}

  /** A word the identifier rule accepts in full. */
  predicate IsIdentifier(w: string) {
    && |w| > 0
    && IsIdentStart(w[0])
    && (forall i :: 0 <= i < |w| ==> IsWordChar(w[i]))
    && w !in Reserved
  }

  /** Every word of `ws` is an identifier. */
  predicate AllIdentifiers(ws: seq<string>) {
    ws == [] || (IsIdentifier(ws[0]) && AllIdentifiers(ws[1..]))
  }

  /** A letter or `_`, then letters, digits and `_`; a reserved word is refused. */
  function ParseIdentifier(s: string): (r: ParseResult<string>)
    ensures Advances(s, r)
    ensures r.Parsed? ==> IsIdentifier(r.value)
    ensures r.Parsed? ==> StartsWith(s, r.value) && r.rest == Whitespace(s[|r.value|..])
    ensures r.Parsed? ==> |r.value| == |s| || !IsWordChar(s[|r.value|])
  {
    if |s| > 0 && IsIdentStart(s[0]) then
      var n := Span(s, IsWordChar);
      var ident := s[..n];
      assert |ident| == n && ident[0] == s[0];
      assert forall i :: 0 <= i < n ==> IsWordChar(ident[i]);
      if ident in Reserved then NoParse else Parsed(ident, Whitespace(s[n..]))
    else NoParse
  }

  /**
   * On a whole word, the identifier rule fails exactly when the word is
   * reserved, and otherwise yields the word.
   */
  lemma IdentifierToken(w: string, t: string)
    requires |w| > 0 && IsIdentStart(w[0])
    requires forall i :: 0 <= i < |w| ==> IsWordChar(w[i])
    requires t == [] || !IsWordChar(t[0])
    ensures ParseIdentifier(w + t).NoParse? <==> w in Reserved
    ensures w !in Reserved ==> ParseIdentifier(w + t) == Parsed(w, Whitespace(t))
  {
    SpanOfPrefix(w, t, IsWordChar);
    assert (w + t)[..|w|] == w;
    assert (w + t)[|w|..] == t;
  }

  /** The `.`-separated identifiers after the first one; a `.` not followed by an identifier is left. */
  function DottedTail(s: string): (r: (seq<string>, string))
    ensures |r.1| <= |s|
    ensures AllIdentifiers(r.0)
    decreases |s|
  {
    if |s| > 0 && s[0] == '.' then
      match ParseIdentifier(s[1..])
      case NoParse => ([], s)
      case Parsed(id, s1) =>
        var (ids, s2) := DottedTail(s1);
        ([id] + ids, s2)
    else ([], s)
  }

  /** The text of a dotted name: its segments joined by `.`. */
  function DottedText(ws: seq<string>): string
    requires |ws| >= 1
  {
    ws[0] + DotsText(ws[1..])
  }

  /** Each segment preceded by `.`. */
  function DotsText(ws: seq<string>): string {
    if ws == [] then "" else "." + ws[0] + DotsText(ws[1..])
  }

  /** `w` does not go on with `.` and the start of an identifier, so a dotted name cannot grow into it. */
  predicate EndsPath(w: string) {
    |w| < 2 || w[0] != '.' || !IsIdentStart(w[1])
  }

  lemma HeadTail(ws: seq<string>)
    requires ws != []
    ensures [ws[0]] + ws[1..] == ws
  {
  }

  /** Concatenation regrouped to the right. */
  lemma Regroup(a: string, b: string, c: string)
    ensures (a + b) + c == a + (b + c)
  {
  }

  lemma DotsTextCons(ws: seq<string>, t: string)
    requires ws != []
    ensures DotsText(ws) + t == "." + (ws[0] + (DotsText(ws[1..]) + t))
  {
    Regroup("." + ws[0], DotsText(ws[1..]), t);
    Regroup(".", ws[0], DotsText(ws[1..]) + t);
  }

  /** Written dots and segments, then `t`, do not continue a word. */
  lemma DotsTextStart(ws: seq<string>, t: string)
    requires t == [] || !IsWordChar(t[0])
    ensures var u := DotsText(ws) + t; u == [] || !IsWordChar(u[0])
  {
    if ws != [] {
      DotsTextCons(ws, t);
    }
  }

  lemma DottedTailStep(s: string, id: string, s1: string, ids: seq<string>, s2: string)
    requires |s| > 0 && s[0] == '.' && ParseIdentifier(s[1..]) == Parsed(id, s1) && DottedTail(s1) == (ids, s2)
    ensures DottedTail(s) == ([id] + ids, s2)
  {
  }

  lemma DottedTailStops(w: string)
    requires EndsPath(w)
    ensures DottedTail(w) == ([], w)
  {
    if |w| > 0 && w[0] == '.' {
      assert ParseIdentifier(w[1..]).NoParse?;
    }
  }

  /** `.`-prefixed identifiers, read after a segment, give back those identifiers. */
  lemma {:induction false} DottedTailRoundTrip(ws: seq<string>, t: string)
    requires AllIdentifiers(ws)
    requires t == [] || !IsWordChar(t[0])
    requires EndsPath(Whitespace(t))
    ensures DottedTail(Whitespace(DotsText(ws) + t)) == (ws, Whitespace(t))
    decreases |ws|
  {
    if ws == [] {
      assert DotsText(ws) + t == t;
      DottedTailStops(Whitespace(t));
    } else {
      DotsTextCons(ws, t);
      DotsTextStart(ws[1..], t);
      DottedTailRoundTrip(ws[1..], t);
      DottedTailCons(ws[0], DotsText(ws[1..]) + t, ws[1..], Whitespace(t));
      HeadTail(ws);
    }
  }

  lemma DottedTailCons(w: string, rest: string, ids: seq<string>, r: string)
    requires IsIdentifier(w) && (rest == [] || !IsWordChar(rest[0]))
    requires DottedTail(Whitespace(rest)) == (ids, r)
    ensures DottedTail(Whitespace("." + (w + rest))) == ([w] + ids, r)
  {
    var s := "." + (w + rest);
    WhitespaceFixed(s);
    assert s[1..] == w + rest;
    IdentifierToken(w, rest);
    DottedTailStep(s, w, Whitespace(rest), ids, r);
  }

  /**
   * A dotted name written out reads back as its segments, with the blanks
   * after it skipped, when the text after it cannot extend the last segment
   * or the name.
   */
  lemma NamespacedRoundTrip(ws: seq<string>, t: string)
    requires |ws| >= 1 && AllIdentifiers(ws)
    requires t == [] || !IsWordChar(t[0])
    requires EndsPath(Whitespace(t))
    ensures ParseNamespaced(DottedText(ws) + t) == Parsed(ws, Whitespace(t))
  {
    var rest := DotsText(ws[1..]) + t;
    Regroup(ws[0], DotsText(ws[1..]), t);
    FirstSegment(ws, t);
    DottedTailRoundTrip(ws[1..], t);
    WhitespaceIdempotent(t);
    NamespacedStep(ws[0] + rest, ws[0], Whitespace(rest), ws[1..], Whitespace(t));
    HeadTail(ws);
  }

  /** The first segment of a written dotted name reads as an identifier. */
  lemma FirstSegment(ws: seq<string>, t: string)
    requires |ws| >= 1 && AllIdentifiers(ws)
    requires t == [] || !IsWordChar(t[0])
    ensures ParseIdentifier(ws[0] + (DotsText(ws[1..]) + t)) == Parsed(ws[0], Whitespace(DotsText(ws[1..]) + t))
  {
    var rest := DotsText(ws[1..]) + t;
    assert rest == [] || !IsWordChar(rest[0]);
    IdentifierToken(ws[0], rest);
  }

  lemma NamespacedStep(s: string, id: string, s1: string, ids: seq<string>, s2: string)
    requires ParseIdentifier(s) == Parsed(id, s1) && DottedTail(s1) == (ids, s2)
    ensures ParseNamespaced(s) == Parsed([id] + ids, Whitespace(s2))
  {
  }

  /** A dotted name `a.b.c`: one or more identifiers joined by `.`. */
  function ParseNamespaced(s: string): (r: ParseResult<seq<string>>)
    ensures Advances(s, r)
    ensures r.Parsed? ==> |r.value| >= 1 && AllIdentifiers(r.value)
    ensures r.Parsed? <==> ParseIdentifier(s).Parsed?
  {
    match ParseIdentifier(s)
    case NoParse => NoParse
    case Parsed(id, s1) =>
      var (ids, s2) := DottedTail(s1);
      Parsed([id] + ids, Whitespace(s2))
  }

  /** The `,`-separated identifiers after the first one. */
  function IdentTail(s: string): (r: (seq<string>, string))
    ensures |r.1| <= |s|
    ensures AllIdentifiers(r.0)
    decreases |s|
  {
    match Commaspace(s)
    case NoParse => ([], s)
    case Parsed(_, s1) =>
      match ParseIdentifier(s1)
      case NoParse => ([], s)
      case Parsed(id, s2) =>
        var (ids, s3) := IdentTail(s2);
        ([id] + ids, s3)
  }

  /** Zero or more identifiers separated by `,` (a parameter list); never fails. */
  function ParseIdentList(s: string): (r: (seq<string>, string))
    ensures |r.1| <= |s|
    ensures AllIdentifiers(r.0)
    ensures r.0 == [] <==> r.1 == s
  {
    match ParseIdentifier(s)
    case NoParse => ([], s)
    case Parsed(id, s1) =>
      var (ids, s2) := IdentTail(s1);
      ([id] + ids, s2)
  }

  /** A parameter list as text: the names joined by `,`. */
  function ListText(ps: seq<string>): string {
    if ps == [] then "" else ps[0] + ListTail(ps[1..])
  }

  /** Each name preceded by `,`. */
  function ListTail(ps: seq<string>): string {
    if ps == [] then "" else "," + ps[0] + ListTail(ps[1..])
  }

  lemma {:induction false} IdentTailRoundTrip(ps: seq<string>, t: string)
    requires AllIdentifiers(ps)
    requires |t| > 0 && t[0] == ')'
    ensures IdentTail(ListTail(ps) + t) == (ps, t)
    decreases |ps|
  {
    if ps == [] {
      assert ListTail(ps) + t == t;
    } else {
      ListTailText(ps, t);
      ListNameToken(ps, t);
      IdentTailRoundTrip(ps[1..], t);
      IdentTailCons(ps[0], ListTail(ps[1..]) + t, ps[1..], t);
      HeadTail(ps);
    }
  }

  lemma IdentTailCons(w: string, rest: string, ids: seq<string>, r: string)
    requires |w| > 0 && IsIdentStart(w[0])
    requires ParseIdentifier(w + rest) == Parsed(w, rest) && IdentTail(rest) == (ids, r)
    ensures IdentTail("," + (w + rest)) == ([w] + ids, r)
  {
    CommaBeforeName(w, rest);
    IdentTailStep("," + (w + rest), w + rest, w, rest, ids, r);
  }

  lemma ListTailText(ps: seq<string>, t: string)
    requires ps != []
    ensures ListTail(ps) + t == "," + (ps[0] + (ListTail(ps[1..]) + t))
  {
    Regroup("," + ps[0], ListTail(ps[1..]), t);
    Regroup(",", ps[0], ListTail(ps[1..]) + t);
  }

  lemma ListTextText(ps: seq<string>, t: string)
    requires ps != []
    ensures ListText(ps) + t == ps[0] + (ListTail(ps[1..]) + t)
  {
    Regroup(ps[0], ListTail(ps[1..]), t);
  }

  lemma CommaBeforeName(w: string, rest: string)
    requires |w| > 0 && IsIdentStart(w[0])
    ensures Commaspace("," + (w + rest)) == Parsed((), w + rest)
  {
    var s := "," + (w + rest);
    assert s[1..] == w + rest;
    WhitespaceFixed(w + rest);
  }

  /** The first name of a written list, before `,` or `)`, reads as itself. */
  lemma ListNameToken(ps: seq<string>, t: string)
    requires |ps| >= 1 && AllIdentifiers(ps)
    requires |t| > 0 && t[0] == ')'
    ensures ParseIdentifier(ps[0] + (ListTail(ps[1..]) + t)) == Parsed(ps[0], ListTail(ps[1..]) + t)
  {
    var rest := ListTail(ps[1..]) + t;
    assert rest[0] == ',' || rest[0] == ')';
    IdentifierToken(ps[0], rest);
    WhitespaceFixed(rest);
  }

  lemma IdentTailStep(s: string, s1: string, id: string, s2: string, ids: seq<string>, s3: string)
    requires Commaspace(s) == Parsed((), s1) && ParseIdentifier(s1) == Parsed(id, s2) && IdentTail(s2) == (ids, s3)
    ensures IdentTail(s) == ([id] + ids, s3)
  {
  }

  /** A parameter list written out, before `)`, reads back as its names. */
  lemma {:induction false} IdentListRoundTrip(ps: seq<string>, t: string)
    requires AllIdentifiers(ps)
    requires |t| > 0 && t[0] == ')'
    ensures ParseIdentList(ListText(ps) + t) == (ps, t)
  {
    if ps == [] {
      assert ListText(ps) + t == t;
      IdentListStops(t);
    } else {
      IdentTailRoundTrip(ps[1..], t);
      IdentListCons(ps, t);
    }
  }

  lemma IdentListStops(t: string)
    requires |t| > 0 && t[0] == ')'
    ensures ParseIdentList(t) == ([], t)
  {
    assert ParseIdentifier(t).NoParse?;
  }

  lemma IdentListCons(ps: seq<string>, t: string)
    requires |ps| >= 1 && AllIdentifiers(ps) && |t| > 0 && t[0] == ')'
    requires IdentTail(ListTail(ps[1..]) + t) == (ps[1..], t)
    ensures ParseIdentList(ListText(ps) + t) == (ps, t)
  {
    var rest := ListTail(ps[1..]) + t;
    ListTextText(ps, t);
    ListNameToken(ps, t);
    IdentListStep(ps[0] + rest, ps[0], rest, ps[1..], t);
    HeadTail(ps);
  }

  lemma IdentListStep(s: string, id: string, s1: string, ids: seq<string>, s2: string)
    requires ParseIdentifier(s) == Parsed(id, s1) && IdentTail(s1) == (ids, s2)
    ensures ParseIdentList(s) == ([id] + ids, s2)
  {
  }
}
