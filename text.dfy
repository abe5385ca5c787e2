/**
  The JavaScript string operations the application relies on, over `string = seq<char>`:
  `trim`, `toLowerCase`, `includes`, `Array.prototype.join`, `String(n)` for an integer,
  `parseInt(s, 10)` and `JSON.stringify` of an array of strings.
 */
module Text {
  import opened Wrappers

  // ---------------------------------------------------------------------------
  // trim

  /** The WhiteSpace and LineTerminator code points outside the range U+2000 to U+200A. */
  const SPACES: set<char> := {
    ' ', '\t', '\n', '\r', '\U{0B}', '\U{0C}', '\U{A0}', '\U{1680}',
    '\U{2028}', '\U{2029}', '\U{202F}', '\U{205F}', '\U{3000}', '\U{FEFF}'}

  /** The WhiteSpace and LineTerminator code points that `String.prototype.trim` removes. */
  predicate IsSpace(c: char) {
    c in SPACES || '\U{2000}' <= c <= '\U{200A}'
  }

  function TrimStart(s: string): (r: string)
    ensures |r| <= |s|
    ensures r == [] || !IsSpace(r[0])
    ensures forall i :: 0 <= i < |s| - |r| ==> IsSpace(s[i])
  {
    if |s| > 0 && IsSpace(s[0]) then TrimStart(s[1..]) else s
  }

  function TrimEnd(s: string): (r: string)
    ensures |r| <= |s|
    ensures r == [] || !IsSpace(r[|r| - 1])
    ensures forall i :: |r| <= i < |s| ==> IsSpace(s[i])
  {
    if |s| > 0 && IsSpace(s[|s| - 1]) then TrimEnd(s[..|s| - 1]) else s
  }

  /** `s.trim()` */
  function Trim(s: string): string {
    TrimEnd(TrimStart(s))
  }

  /** `!s.trim()`: the string is empty once trimmed. */
  predicate IsBlank(s: string) {
    Trim(s) == ""
  }

  /** `!x?.trim()` for a value that may be absent. */
  predicate IsBlankOpt(x: Option<string>) {
    x.None? || IsBlank(x.value)
  }

  /** Trimming the start keeps a suffix. */
  lemma {:induction false} TrimStartSuffix(s: string)
    ensures TrimStart(s) == s[|s| - |TrimStart(s)|..]
  {
    if |s| > 0 && IsSpace(s[0]) {
      TrimStartSuffix(s[1..]);
    }
  }

  /** Trimming the end keeps a prefix. */
  lemma {:induction false} TrimEndPrefix(s: string)
    ensures TrimEnd(s) == s[..|TrimEnd(s)|]
  {
    if |s| > 0 && IsSpace(s[|s| - 1]) {
      TrimEndPrefix(s[..|s| - 1]);
    }
  }

  lemma {:induction false} TrimmedEnds(s: string)
    ensures var t := Trim(s); t == [] || (!IsSpace(t[0]) && !IsSpace(t[|t| - 1]))
  {
    var u := TrimStart(s);
    var t := TrimEnd(u);
    TrimEndPrefix(u);
    if t != [] {
      assert t[0] == u[0];
    }
  }

  lemma {:induction false} TrimStartNoop(s: string)
    requires s == [] || !IsSpace(s[0])
    ensures TrimStart(s) == s
  {
  }

  lemma {:induction false} TrimEndNoop(s: string)
    requires s == [] || !IsSpace(s[|s| - 1])
    ensures TrimEnd(s) == s
  {
  }

  /** Trimming twice is trimming once. */
  lemma {:induction false} TrimIdempotent(s: string)
    ensures Trim(Trim(s)) == Trim(s)
  {
    var t := Trim(s);
    TrimmedEnds(s);
    TrimStartNoop(t);
    TrimEndNoop(t);
  }

  /** A string is blank exactly when every character is whitespace. */
  lemma {:induction false} BlankIffAllSpace(s: string)
    ensures IsBlank(s) <==> forall i :: 0 <= i < |s| ==> IsSpace(s[i])
  {
    var u := TrimStart(s);
    if IsBlank(s) {
      assert u == [];
    } else {
      var t := Trim(s);
      TrimStartSuffix(s);
      TrimEndPrefix(u);
      assert t != [] && t == u[..|t|];
      assert !IsSpace(s[|s| - |u|]);
    }
  }

  // ---------------------------------------------------------------------------
  // toLowerCase

  /** The case mapping of `toLowerCase` for ASCII and the Latin-1 upper-case letters. */
  function LowerChar(c: char): char {
    if 'A' <= c <= 'Z' || ('\U{C0}' <= c <= '\U{DE}' && c != '\U{D7}') then (c as int + 32) as char else c
  }

  /** `s.toLowerCase()`: each character mapped on its own, so the length is kept. */
  function Lower(s: string): (r: string)
    ensures |r| == |s|
  {
    seq(|s|, i requires 0 <= i < |s| => LowerChar(s[i]))
  }

  /** Lower-casing twice is lower-casing once. */
  lemma {:induction false} LowerIdempotent(s: string)
    ensures Lower(Lower(s)) == Lower(s)
  {
  }

  /** `toLowerCase` maps the empty string, and only it, to the empty string. */
  lemma {:induction false} LowerEmpty(s: string)
    ensures Lower(s) == "" <==> s == ""
  {
  }

  // ---------------------------------------------------------------------------
  // includes

  /** `s.includes(sub)` */
  predicate Contains(s: string, sub: string) {
    sub <= s || (|s| > 0 && Contains(s[1..], sub))
  }

  /** `includes` holds exactly when `sub` occurs at some position of `s`. */
  lemma {:induction false} ContainsAt(s: string, sub: string)
    ensures Contains(s, sub) <==> exists k :: 0 <= k <= |s| - |sub| && sub <= s[k..]
  {
    if sub <= s {
      assert sub <= s[0..];
    } else if |s| > 0 {
      ContainsAt(s[1..], sub);
      if Contains(s[1..], sub) {
        var k :| 0 <= k <= |s| - 1 - |sub| && sub <= s[1..][k..];
        assert s[1..][k..] == s[k + 1..];
      }
      if k :| 0 <= k <= |s| - |sub| && sub <= s[k..] {
        assert k != 0;
        assert s[1..][k - 1..] == s[k..];
      }
    }
  }

  lemma {:induction false} ContainsInSuffix(p: string, s: string, sub: string)
    requires Contains(s, sub)
    ensures Contains(p + s, sub)
  {
    if p == [] {
      assert p + s == s;
    } else {
      assert (p + s)[1..] == p[1..] + s;
      ContainsInSuffix(p[1..], s, sub);
    }
  }

  lemma {:induction false} ContainsInPrefix(s: string, q: string, sub: string)
    requires Contains(s, sub)
    ensures Contains(s + q, sub)
  {
    if sub <= s {
      assert sub <= s + q;
    } else {
      assert (s + q)[1..] == s[1..] + q;
      ContainsInPrefix(s[1..], q, sub);
    }
  }

  lemma {:induction false} ContainsSelf(s: string)
    ensures Contains(s, s)
  {
  }

  // ---------------------------------------------------------------------------
  // join

  /** `parts.join(sep)` */
  function Join(parts: seq<string>, sep: string): string {
    if |parts| == 0 then ""
    else if |parts| == 1 then parts[0]
    else parts[0] + sep + Join(parts[1..], sep)
  }

  /** Every part occurs in the joined string. */
  lemma {:induction false} JoinContainsParts(parts: seq<string>, sep: string, i: nat)
    requires i < |parts|
    ensures Contains(Join(parts, sep), parts[i])
  {
    if |parts| == 1 {
      ContainsSelf(parts[0]);
    } else if i == 0 {
      ContainsSelf(parts[0]);
      ContainsInPrefix(parts[0], sep + Join(parts[1..], sep), parts[0]);
      assert parts[0] + sep + Join(parts[1..], sep) == parts[0] + (sep + Join(parts[1..], sep));
    } else {
      JoinContainsParts(parts[1..], sep, i - 1);
      ContainsInSuffix(parts[0] + sep, Join(parts[1..], sep), parts[i]);
    }
  }

  /** The joined string holds every part and one separator between each two neighbours. */
  lemma {:induction false} JoinLength(parts: seq<string>, sep: string)
    ensures |Join(parts, sep)| == TotalLength(parts) + (if |parts| == 0 then 0 else (|parts| - 1) * |sep|)
  {
    if |parts| > 1 {
      JoinLength(parts[1..], sep);
    }
  }

  function TotalLength(parts: seq<string>): nat {
    if parts == [] then 0 else |parts[0]| + TotalLength(parts[1..])
  }

  // ---------------------------------------------------------------------------
  // String(n) and parseInt(s, 10)

  predicate IsDigit(c: char) {
    '0' <= c <= '9'
  }

  function DigitChar(d: nat): (c: char)
    requires d < 10
    ensures IsDigit(c)
  {
    ('0' as int + d) as char
  }

  function DigitValue(c: char): nat
    requires IsDigit(c)
  {
    c as int - '0' as int
  }

  /** Decimal digits of a natural number, most significant first, no leading zeros. */
  function NatToString(n: nat): (r: string)
    ensures |r| > 0 && forall i :: 0 <= i < |r| ==> IsDigit(r[i])
  {
    if n < 10 then [DigitChar(n)] else NatToString(n / 10) + [DigitChar(n % 10)]
  }

  /** `String(n)` for an integer `n`. */
  function IntToString(n: int): (r: string)
    ensures |r| > 0 && (IsDigit(r[0]) || r[0] == '-')
  {
    if n < 0 then "-" + NatToString(-n) else NatToString(n)
  }

  /** Length of the run of decimal digits at the start of `s`. */
  function DigitRun(s: string): (k: nat)
    ensures k <= |s| && forall i :: 0 <= i < k ==> IsDigit(s[i])
    ensures k < |s| ==> !IsDigit(s[k])
  {
    if |s| > 0 && IsDigit(s[0]) then 1 + DigitRun(s[1..]) else 0
  }

  /** Value of a string of decimal digits. */
  function DigitsValue(s: string): nat
    requires forall i :: 0 <= i < |s| ==> IsDigit(s[i])
  {
    if s == [] then 0 else DigitsValue(s[..|s| - 1]) * 10 + DigitValue(s[|s| - 1])
  }

  /**
    `parseInt(s, 10)`: leading whitespace is skipped, an optional sign is read, then the
    longest run of decimal digits; `None` stands for `NaN` (no digit at all).
   */
  function ParseInt(s: string): Option<int> {
    var t := TrimStart(s);
    var neg := |t| > 0 && t[0] == '-';
    var u := if |t| > 0 && (t[0] == '-' || t[0] == '+') then t[1..] else t;
    var k := DigitRun(u);
    var v: int := if k == 0 then 0 else DigitsValue(u[..k]);
    if k == 0 then None
    else if neg then Some(-v)
    else Some(v)
  }

  /** `Number(x) || 0` and `parseFloat(x)` followed by the `NaN` check: a missing number reads as 0. */
  function NumOrZero(x: Option<int>): int {
    if x.Some? then x.value else 0
  }

  lemma {:induction false} DigitRunAll(s: string)
    requires forall i :: 0 <= i < |s| ==> IsDigit(s[i])
    ensures DigitRun(s) == |s|
  {
    if s != [] {
      DigitRunAll(s[1..]);
    }
  }

  lemma {:induction false} NatToStringValue(n: nat)
    ensures DigitsValue(NatToString(n)) == n
  {
    if n >= 10 {
      var s := NatToString(n);
      NatToStringValue(n / 10);
      assert s[..|s| - 1] == NatToString(n / 10);
    }
  }

  /** `parseInt(String(n), 10) == n`: a number written to a cell reads back unchanged. */
  lemma {:induction false} IntToStringRoundTrip(n: int)
    ensures ParseInt(IntToString(n)) == Some(n)
  {
    if n < 0 {
      NegativeRoundTrip(-n);
    } else {
      NaturalRoundTrip(n);
    }
  }

  lemma {:induction false} NaturalRoundTrip(n: nat)
    ensures ParseInt(NatToString(n)) == Some(n)
  {
    var d := NatToString(n);
    TrimStartNoop(d);
    DigitRunAll(d);
    NatToStringValue(n);
    assert d[..|d|] == d;
  }

  lemma {:induction false} NegativeRoundTrip(n: nat)
    ensures ParseInt("-" + NatToString(n)) == Some(-(n as int))
  {
    var d := NatToString(n);
    var s := "-" + d;
    TrimStartNoop(s);
    DigitRunAll(d);
    NatToStringValue(n);
    assert s[1..] == d;
    assert d[..|d|] == d;
  }

  /** The decimal form of a number has no surrounding whitespace. */
  lemma {:induction false} TrimIntToString(n: int)
    ensures Trim(IntToString(n)) == IntToString(n)
  {
    var s := IntToString(n);
    TrimStartNoop(s);
    assert IsDigit(s[|s| - 1]);
    TrimEndNoop(s);
  }

  /** Digits followed by something that is not a digit form a run of exactly that length. */
  lemma {:induction false} DigitRunOfDigits(d: string, rest: string)
    requires forall i :: 0 <= i < |d| ==> IsDigit(d[i])
    requires rest == [] || !IsDigit(rest[0])
    ensures DigitRun(d + rest) == |d|
  {
    if d != [] {
      assert (d + rest)[1..] == d[1..] + rest;
      DigitRunOfDigits(d[1..], rest);
    }
  }

  /** Once the leading whitespace is skipped, a string starting with a digit reads as its run of digits. */
  lemma {:induction false} ParseIntOfDigitStart(s: string)
    requires var t := TrimStart(s); t != [] && IsDigit(t[0])
    ensures var t := TrimStart(s); ParseInt(s) == Some(DigitsValue(t[..DigitRun(t)]) as int)
  {
  }

  /**
    `parseInt` reads the number back from any string that trims to its decimal form:
    surrounding whitespace does not change the number read.
   */
  lemma {:induction false} ParseIntOfTrimmed(s: string, n: nat)
    requires Trim(s) == NatToString(n)
    ensures ParseInt(s) == Some(n)
  {
    var d := NatToString(n);
    TrimmedDigits(s, d);
    ParseIntOfDigitStart(s);
    NatToStringValue(n);
  }

  /** A string that trims to a run of digits starts, after its leading blanks, with exactly that run. */
  lemma {:induction false} TrimmedDigits(s: string, d: string)
    requires Trim(s) == d && d != [] && forall i :: 0 <= i < |d| ==> IsDigit(d[i])
    ensures var t := TrimStart(s); t != [] && IsDigit(t[0]) && DigitRun(t) == |d| && t[..|d|] == d
  {
    var t := TrimStart(s);
    TrimEndPrefix(t);
    assert t[..|d|] == d;
    var rest := t[|d|..];
    assert t == d + rest;
    if rest != [] {
      assert rest[0] == t[|d|];
      assert IsSpace(rest[0]);
    }
    DigitRunOfDigits(d, rest);
  }

  /** Lower-casing leaves digits as they are and makes no digit of anything else. */
  lemma {:induction false} LowerDigits(s: string, d: string)
    requires forall i :: 0 <= i < |d| ==> IsDigit(d[i])
    requires Lower(s) == d
    ensures s == d
  {
    assert |s| == |d|;
    forall i | 0 <= i < |s|
      ensures s[i] == d[i]
    {
      assert LowerChar(s[i]) == d[i];
    }
  }

  /** Different numbers have different decimal forms. */
  lemma {:induction false} IntToStringInjective(m: int, n: int)
    ensures IntToString(m) == IntToString(n) ==> m == n
  {
    IntToStringRoundTrip(m);
    IntToStringRoundTrip(n);
  }

  // ---------------------------------------------------------------------------
  // JSON.stringify(headers)

  function HexDigit(d: nat): char
    requires d < 16
  {
    if d < 10 then DigitChar(d) else ('a' as int + d - 10) as char
  }

  function JsonEscapeChar(c: char): string {
    if c == '"' then "\\\""
    else if c == '\\' then "\\\\"
    else if c == '\n' then "\\n"
    else if c == '\r' then "\\r"
    else if c == '\t' then "\\t"
    else if c == '\U{08}' then "\\b"
    else if c == '\U{0C}' then "\\f"
    else if (c as int) < 0x20 then "\\u00" + [HexDigit(c as int / 16), HexDigit(c as int % 16)]
    else [c]
  }

  function JsonEscape(s: string): string {
    if s == [] then "" else JsonEscapeChar(s[0]) + JsonEscape(s[1..])
  }

  /** `JSON.stringify(xs)` for an array of strings. */
  function JsonStringArray(xs: seq<string>): string {
    "[" + Join(seq(|xs|, i requires 0 <= i < |xs| => "\"" + JsonEscape(xs[i]) + "\""), ",") + "]"
  }
}
