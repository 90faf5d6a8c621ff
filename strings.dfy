/**
 * The JavaScript string operations the application relies on, stated over
 * `seq<char>`: `trim`, ASCII `toLowerCase`, `startsWith`, `includes`,
 * `indexOf`, `replace` with a string pattern, `split` on one character, the
 * first match of a regular expression of the form `P(.+)`, and the decimal
 * rendering of an integer inside a template literal.
 */
module Strings {
  import opened Wrappers

  /** ECMAScript WhiteSpace and LineTerminator code points, the set `trim` removes. */
  predicate IsWhitespace(c: char) {
    || c == '\t' || c == '\n' || c == '\U{000B}' || c == '\U{000C}' || c == '\r' || c == ' '
    || c == '\U{00A0}' || c == '\U{1680}' || ('\U{2000}' <= c <= '\U{200A}')
    || c == '\U{2028}' || c == '\U{2029}' || c == '\U{202F}' || c == '\U{205F}'
    || c == '\U{3000}' || c == '\U{FEFF}'
  }

  predicate AllWhitespace(s: string) {
    forall i :: 0 <= i < |s| ==> IsWhitespace(s[i])
  }

  function TrimStart(s: string): (r: string)
    ensures |r| <= |s|
    ensures r != [] ==> !IsWhitespace(r[0])
    decreases |s|
  {
    if s != [] && IsWhitespace(s[0]) then TrimStart(s[1..]) else s
  }

  /** `TrimStart` keeps a suffix and drops only whitespace. */
  lemma {:induction false} TrimStartDropsWhitespace(s: string)
    ensures TrimStart(s) == s[|s| - |TrimStart(s)|..]
    ensures AllWhitespace(s[..|s| - |TrimStart(s)|])
    decreases |s|
  {
    if s != [] && IsWhitespace(s[0]) {
      var r := TrimStart(s[1..]);
      TrimStartDropsWhitespace(s[1..]);
      assert s[..|s| - |r|] == [s[0]] + s[1..][..|s| - 1 - |r|];
    }
  }

  function TrimEnd(s: string): (r: string)
    ensures |r| <= |s|
    ensures r != [] ==> !IsWhitespace(r[|r| - 1])
    decreases |s|
  {
    if s != [] && IsWhitespace(s[|s| - 1]) then TrimEnd(s[..|s| - 1]) else s
  }

  /** `TrimEnd` keeps a prefix and drops only whitespace. */
  lemma {:induction false} TrimEndDropsWhitespace(s: string)
    ensures TrimEnd(s) == s[..|TrimEnd(s)|]
    ensures AllWhitespace(s[|TrimEnd(s)|..])
    decreases |s|
  {
    if s != [] && IsWhitespace(s[|s| - 1]) {
      var r := TrimEnd(s[..|s| - 1]);
      TrimEndDropsWhitespace(s[..|s| - 1]);
      assert s[|r|..] == s[..|s| - 1][|r|..] + [s[|s| - 1]];
    }
  }

  /** `s.trim()`. */
  function Trim(s: string): string {
    TrimEnd(TrimStart(s))
  }

  /** `!s.trim()`: the trimmed string is empty, hence falsy. */
  predicate Blank(s: string) {
    Trim(s) == ""
  }

  lemma BlankIffAllWhitespace(s: string)
    ensures Blank(s) <==> AllWhitespace(s)
  {
    var t := TrimStart(s);
    TrimStartDropsWhitespace(s);
    TrimEndDropsWhitespace(t);
    if Blank(s) {
      assert s == s[..|s| - |t|];
    }
  }

  /** Trimming a string that is empty or has no whitespace at either end changes nothing. */
  lemma TrimUnchanged(s: string)
    requires s != [] ==> !IsWhitespace(s[0]) && !IsWhitespace(s[|s| - 1])
    ensures Trim(s) == s
  {
  }

  lemma TrimIdempotent(s: string)
    ensures Trim(Trim(s)) == Trim(s)
  {
    var t := TrimStart(s);
    var r := TrimEnd(t);
    TrimEndDropsWhitespace(t);
    if r != [] {
      assert r[0] == t[0];
    }
    TrimUnchanged(r);
  }

  /** `c.toLowerCase()` on ASCII letters; every other character is left alone. */
  function LowerChar(c: char): char {
    if 'A' <= c <= 'Z' then (c as int + 32) as char else c
  }

  /** `s.toLowerCase()`, restricted to ASCII case mapping. */
  function ToLower(s: string): (r: string)
    ensures |r| == |s|
    ensures forall i :: 0 <= i < |s| ==> r[i] == LowerChar(s[i])
    decreases |s|
  {
    if s == [] then [] else [LowerChar(s[0])] + ToLower(s[1..])
  }

  lemma {:induction false} ToLowerIdempotent(s: string)
    ensures ToLower(ToLower(s)) == ToLower(s)
  {
    var l := ToLower(s);
    var ll := ToLower(l);
    forall i | 0 <= i < |s| ensures ll[i] == l[i] {
      assert ll[i] == LowerChar(LowerChar(s[i]));
    }
  }

  /** `s.startsWith(p)`. */
  predicate StartsWith(s: string, p: string) {
    |p| <= |s| && s[..|p|] == p
  }

  lemma StartsWithPrefix(p: string, rest: string)
    ensures StartsWith(p + rest, p)
  {
    assert (p + rest)[..|p|] == p;
  }

  /**
   * `s.indexOf(sub)`, with `None` for -1: the first position at which `sub`
   * occurs in `s`.
   */
  function IndexOf(s: string, sub: string): (r: Option<nat>)
    ensures r.Some? ==> r.value + |sub| <= |s| && StartsWith(s[r.value..], sub)
    ensures r.Some? ==> forall j :: 0 <= j < r.value ==> !StartsWith(s[j..], sub)
    ensures r.None? ==> forall j :: 0 <= j <= |s| ==> !StartsWith(s[j..], sub)
    decreases |s|
  {
    if StartsWith(s, sub) then Some(0)
    else if s == [] then None
    else
      assert forall j :: 1 <= j <= |s| ==> s[j..] == s[1..][j - 1..];
      match IndexOf(s[1..], sub)
      case None => None
      case Some(k) => Some(k + 1)
  }

  /** `s.includes(sub)`. */
  predicate Contains(s: string, sub: string) {
    IndexOf(s, sub).Some?
  }

  /** An occurrence anywhere means `includes` is true. */
  lemma ContainsAt(s: string, sub: string, i: nat)
    requires i <= |s| && StartsWith(s[i..], sub)
    ensures Contains(s, sub)
  {
  }

  lemma ContainsPrefix(p: string, rest: string)
    ensures Contains(p + rest, p)
  {
    StartsWithPrefix(p, rest);
    assert (p + rest)[0..] == p + rest;
    ContainsAt(p + rest, p, 0);
  }

  lemma ContainsInfix(a: string, p: string, b: string)
    ensures Contains(a + p + b, p)
  {
    var s := a + p + b;
    assert s[|a|..] == p + b;
    StartsWithPrefix(p, b);
    ContainsAt(s, p, |a|);
  }

  /** Text in front of a string keeps what the string includes. */
  lemma ContainsExtend(a: string, s: string, sub: string)
    requires Contains(s, sub)
    ensures Contains(a + s, sub)
  {
    var i := IndexOf(s, sub).value;
    assert (a + s)[|a| + i..] == s[i..];
    ContainsAt(a + s, sub, |a| + i);
  }

  /** The text before the first occurrence of `sub` does not include `sub`. */
  lemma BeforeFirstLacks(s: string, sub: string, j: nat)
    requires sub != [] && IndexOf(s, sub) == Some(j)
    ensures !Contains(s[..j], sub)
  {
    forall k | 0 <= k <= j
      ensures !StartsWith(s[..j][k..], sub)
    {
      if k < j && |sub| <= j - k {
        assert !StartsWith(s[k..], sub);
        assert s[..j][k..][..|sub|] == s[k..k + |sub|];
        assert s[k..][..|sub|] == s[k..k + |sub|];
      }
    }
  }

  /** The first occurrence is the one at `i` when none starts earlier. */
  lemma IndexOfAt(s: string, sub: string, i: nat)
    requires i <= |s| && StartsWith(s[i..], sub)
    requires forall j :: 0 <= j < i ==> !StartsWith(s[j..], sub)
    ensures IndexOf(s, sub) == Some(i)
  {
  }

  /** A string lacking one of the characters of `sub` does not include `sub`. */
  lemma MissingChar(s: string, sub: string, c: char)
    requires c in sub && c !in s
    ensures !Contains(s, sub)
  {
  }

  lemma ContainsEmpty(s: string)
    ensures Contains(s, "")
  {
    assert s[0..][..0] == "";
    ContainsAt(s, "", 0);
  }

  /** `s.replace(pat, rep)` with a string pattern: only the first occurrence is replaced. */
  function ReplaceFirst(s: string, pat: string, rep: string): (r: string)
    ensures !Contains(s, pat) ==> r == s
    ensures Contains(s, pat) ==>
      var i := IndexOf(s, pat).value; r == s[..i] + rep + s[i + |pat|..]
  {
    match IndexOf(s, pat)
    case None => s
    case Some(i) => s[..i] + rep + s[i + |pat|..]
  }

  /** Replacing an occurrence at the very start removes exactly that prefix. */
  lemma ReplaceFirstAtStart(p: string, rest: string)
    ensures ReplaceFirst(p + rest, p, "") == rest
  {
    StartsWithPrefix(p, rest);
    assert (p + rest)[0..] == p + rest;
  }

  /** `s.split(sep)` for a one-character separator; never empty. */
  function Split(s: string, sep: char): (parts: seq<string>)
    ensures |parts| >= 1
    decreases |s|
  {
    if s == [] then [""]
    else
      var rest := Split(s[1..], sep);
      if s[0] == sep then [""] + rest
      else [[s[0]] + rest[0]] + rest[1..]
  }

  /** A string without the separator splits into itself. */
  lemma {:induction false} SplitNoSeparator(w: string, sep: char)
    requires sep !in w
    ensures Split(w, sep) == [w]
    decreases |w|
  {
    if w != [] {
      assert sep !in w[1..];
      SplitNoSeparator(w[1..], sep);
      assert [w[0]] + w[1..] == w;
    }
  }

  /** Splitting distributes over a separator: `(a + sep + b).split(sep)` is `a.split(sep)` followed by `b.split(sep)`. */
  lemma {:induction false} SplitAround(a: string, sep: char, b: string)
    ensures Split(a + [sep] + b, sep) == Split(a, sep) + Split(b, sep)
    decreases |a|
  {
    if a == [] {
      assert a + [sep] + b == [sep] + b;
      assert ([sep] + b)[1..] == b;
    } else {
      var s := a + [sep] + b;
      assert s[0] == a[0];
      assert s[1..] == a[1..] + [sep] + b;
      SplitAround(a[1..], sep, b);
    }
  }

  predicate IsLineTerminator(c: char) {
    c == '\n' || c == '\r' || c == '\U{2028}' || c == '\U{2029}'
  }

  /** The longest prefix of `s` without a line terminator: what a greedy `.+` or `.*` consumes. */
  function LineFrom(s: string): (r: string)
    ensures |r| <= |s| && r == s[..|r|]
    ensures forall i :: 0 <= i < |r| ==> !IsLineTerminator(r[i])
    ensures |r| < |s| ==> IsLineTerminator(s[|r|])
    decreases |s|
  {
    if s == [] || IsLineTerminator(s[0]) then [] else [s[0]] + LineFrom(s[1..])
  }

  /**
   * Group 1 of `s.match(/P(.+)/)` for a literal `P`: at the leftmost position
   * where `P` occurs followed by at least one character other than a line
   * terminator, the rest of that line.
   */
  function MatchRestOfLine(s: string, p: string): (r: Option<string>)
    ensures r.Some? ==> r.value != [] && forall i :: 0 <= i < |r.value| ==> !IsLineTerminator(r.value[i])
    decreases |s|
  {
    if StartsWith(s, p) && |s| > |p| && !IsLineTerminator(s[|p|]) then Some(LineFrom(s[|p|..]))
    else if s == [] then None
    else MatchRestOfLine(s[1..], p)
  }

  /** The regular expression can only match where `P` itself occurs. */
  lemma {:induction false} MatchImpliesContains(s: string, p: string)
    requires MatchRestOfLine(s, p).Some?
    ensures Contains(s, p)
    decreases |s|
  {
    if StartsWith(s, p) && |s| > |p| && !IsLineTerminator(s[|p|]) {
      assert s[0..] == s;
      ContainsAt(s, p, 0);
    } else {
      MatchImpliesContains(s[1..], p);
      var i := IndexOf(s[1..], p).value;
      assert s[1..][i..] == s[i + 1..];
      ContainsAt(s, p, i + 1);
    }
  }

  /** A pattern that does not occur cannot match. */
  lemma MatchNeedsPattern(s: string, p: string)
    requires !Contains(s, p)
    ensures MatchRestOfLine(s, p).None?
  {
    if MatchRestOfLine(s, p).Some? {
      MatchImpliesContains(s, p);
    }
  }

  /** A string without line terminators is its own first line. */
  lemma {:induction false} LineFromWhole(s: string)
    requires forall i :: 0 <= i < |s| ==> !IsLineTerminator(s[i])
    ensures LineFrom(s) == s
    decreases |s|
  {
    if s != [] {
      assert !IsLineTerminator(s[0]);
      LineFromWhole(s[1..]);
    }
  }

  /** If `P` opens the string and a non-terminator follows, the capture is the rest of the first line. */
  lemma MatchRestOfLineAtStart(p: string, rest: string)
    requires rest != [] && !IsLineTerminator(rest[0])
    ensures MatchRestOfLine(p + rest, p) == Some(LineFrom(rest))
  {
    StartsWithPrefix(p, rest);
    assert (p + rest)[|p|..] == rest;
  }

  function DigitChar(d: nat): char
    requires d < 10
  {
    "0123456789"[d]
  }

  /** The decimal digits of `n`, as `${n}` renders a non-negative integer. */
  function NatToString(n: nat): (r: string)
    ensures r != []
    ensures forall i :: 0 <= i < |r| ==> '0' <= r[i] <= '9'
    decreases n
  {
    if n < 10 then [DigitChar(n)] else NatToString(n / 10) + [DigitChar(n % 10)]
  }

  /** `${n}` for an integer, with a leading minus sign when negative. */
  function IntToString(n: int): string {
    if n < 0 then "-" + NatToString(-n) else NatToString(n)
  }

  /** Reads a string of decimal digits back as a number: the inverse of NatToString. */
  function DecimalValue(s: string): nat
    requires forall i :: 0 <= i < |s| ==> '0' <= s[i] <= '9'
    decreases |s|
  {
    if s == [] then 0 else DecimalValue(s[..|s| - 1]) * 10 + (s[|s| - 1] as int - '0' as int)
  }

  lemma {:induction false} DecimalRoundTrip(n: nat)
    ensures DecimalValue(NatToString(n)) == n
    decreases n
  {
    var r := NatToString(n);
    if n < 10 {
      assert r[..0] == [];
    } else {
      DecimalRoundTrip(n / 10);
      assert r[..|r| - 1] == NatToString(n / 10);
    }
  }

  /** Distinct numbers render as distinct strings. */
  lemma NatToStringInjective(m: nat, n: nat)
    requires NatToString(m) == NatToString(n)
    ensures m == n
  {
    DecimalRoundTrip(m);
    DecimalRoundTrip(n);
  }
}
