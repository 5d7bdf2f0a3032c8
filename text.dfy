/**
 * The JavaScript string operations the scripts rely on: includes, startsWith,
 * endsWith, indexOf, replace with a string pattern, trim, toLowerCase (as far
 * as it matters for ASCII patterns) and the decimal rendering of integers used
 * in template literals.
 */
module Text {
  import opened Wrappers

  /** `p` occurs in `s` starting at position `i`. */
  predicate OccursAt(s: string, p: string, i: int)
  {
    0 <= i && i + |p| <= |s| && s[i..i + |p|] == p
  }

  /** `s.includes(p)` */
  predicate Contains(s: string, p: string)
  {
    exists i :: 0 <= i <= |s| - |p| && OccursAt(s, p, i)
  }

  /** `s.startsWith(p)` */
  predicate StartsWith(s: string, p: string)
  {
    |p| <= |s| && s[..|p|] == p
  }

  /** `s.endsWith(p)` */
  predicate EndsWith(s: string, p: string)
  {
    |p| <= |s| && s[|s| - |p|..] == p
  }

  /** The first occurrence of `p` in `s` at or after position `k`. */
  function IndexFrom(s: string, p: string, k: nat): (r: Option<nat>)
    requires k <= |s|
    ensures r.Some? ==> k <= r.value && OccursAt(s, p, r.value)
    ensures r.Some? ==> forall j :: k <= j < r.value ==> !OccursAt(s, p, j)
    ensures r.None? ==> forall j :: k <= j ==> !OccursAt(s, p, j)
    decreases |s| - k
  {
    if OccursAt(s, p, k) then Some(k)
    else if k == |s| then None
    else IndexFrom(s, p, k + 1)
  }

  /** `s.indexOf(p)`, with -1 written as None. */
  function IndexOf(s: string, p: string): (r: Option<nat>)
    ensures r.Some? <==> Contains(s, p)
    ensures r.Some? ==> OccursAt(s, p, r.value) && forall j :: 0 <= j < r.value ==> !OccursAt(s, p, j)
  {
    IndexFrom(s, p, 0)
  }

  /** `s.replace(p, rep)` for a string pattern: only the first occurrence is replaced. */
  function ReplaceFirst(s: string, p: string, rep: string): (r: string)
    ensures !Contains(s, p) ==> r == s
    ensures Contains(s, p) ==> exists i :: OccursAt(s, p, i) && r == s[..i] + rep + s[i + |p|..]
  {
    match IndexOf(s, p)
    case None => s
    case Some(i) => s[..i] + rep + s[i + |p|..]
  }

  /** Occurrence is transitive: a string containing `t` contains everything `t` contains. */
  lemma ContainsTrans(s: string, t: string, u: string)
    requires Contains(s, t) && Contains(t, u)
    ensures Contains(s, u)
  {
    var i :| 0 <= i <= |s| - |t| && OccursAt(s, t, i);
    var j :| 0 <= j <= |t| - |u| && OccursAt(t, u, j);
    assert s[i..i + |t|] == t;
    assert t[j..j + |u|] == u;
    forall k | 0 <= k < |u|
      ensures s[i + j..i + j + |u|][k] == u[k]
    {
      assert u[k] == t[j + k] == s[i + j + k];
    }
    assert s[i + j..i + j + |u|] == u;
    assert OccursAt(s, u, i + j);
  }

  /** A prefix of a string is contained in it. */
  lemma StartsWithContains(s: string, p: string)
    requires StartsWith(s, p)
    ensures Contains(s, p)
  {
    assert OccursAt(s, p, 0);
  }

  /** A string consisting of `a`, then `p`, then `b` contains `p`. */
  lemma ContainsMiddle(a: string, p: string, b: string)
    ensures Contains(a + p + b, p)
  {
    var s := a + p + b;
    assert s[|a|..|a| + |p|] == p;
    assert OccursAt(s, p, |a|);
  }

  /** A string made of `a`, then `p`, then `b` starts with `a`, ends with `b` and contains `p`. */
  lemma Sandwich(a: string, p: string, b: string)
    ensures StartsWith(a + p + b, a) && EndsWith(a + p + b, b) && Contains(a + p + b, p)
  {
    var s := a + p + b;
    assert s[..|a|] == a;
    assert s[|s| - |b|..] == b;
    ContainsMiddle(a, p, b);
  }

  /** Replacing the first occurrence of a prefix removes exactly that prefix. */
  lemma ReplaceFirstOfPrefix(p: string, m: string)
    ensures ReplaceFirst(p + m, p, "") == m
  {
    var s := p + m;
    assert OccursAt(s, p, 0);
    assert IndexOf(s, p) == Some(0);
    assert s[|p|..] == m;
  }

  // ---------------------------------------------------------------
  // Whitespace, as String.prototype.trim and parseInt understand it
  // ---------------------------------------------------------------

  /** ECMAScript line terminators: LF, CR, LINE SEPARATOR, PARAGRAPH SEPARATOR. */
  predicate IsLineTerminator(c: char)
  {
    c == '\n' || c == '\r' || c == '\U{2028}' || c == '\U{2029}'
  }

  /** ECMAScript WhiteSpace (TAB, VT, FF, ZWNBSP and the Zs category) or a line terminator. */
  predicate IsJsSpace(c: char)
  {
    c == '\t' || c == '\U{000B}' || c == '\U{000C}' || c == ' ' || c == '\U{00A0}' || c == '\U{FEFF}'
    || c == '\U{1680}' || ('\U{2000}' <= c <= '\U{200A}') || c == '\U{202F}' || c == '\U{205F}'
    || c == '\U{3000}' || IsLineTerminator(c)
  }

  /** `s.trimStart()` */
  function TrimStart(s: string): (r: string)
    ensures |r| <= |s| && r == s[|s| - |r|..]
    ensures r == "" || !IsJsSpace(r[0])
    ensures forall i :: 0 <= i < |s| - |r| ==> IsJsSpace(s[i])
  {
    if |s| > 0 && IsJsSpace(s[0]) then TrimStart(s[1..]) else s
  }

  /** `s.trimEnd()` */
  function TrimEnd(s: string): (r: string)
    ensures |r| <= |s| && r == s[..|r|]
    ensures r == "" || !IsJsSpace(r[|r| - 1])
    ensures forall i :: |r| <= i < |s| ==> IsJsSpace(s[i])
  {
    if |s| > 0 && IsJsSpace(s[|s| - 1]) then TrimEnd(s[..|s| - 1]) else s
  }

  /** `s.trim()` */
  function Trim(s: string): string
  {
    TrimEnd(TrimStart(s))
  }

  /** A string trims to the empty string exactly when every character is whitespace. */
  lemma TrimEmptyIffBlank(s: string)
    ensures Trim(s) == "" <==> forall i :: 0 <= i < |s| ==> IsJsSpace(s[i])
  {
    var t := TrimStart(s);
    if Trim(s) == "" {
      assert t == "";
    } else {
      var r := Trim(s);
      assert !IsJsSpace(r[0]);
      assert t[0] == r[0];
      assert s[|s| - |t|] == t[0];
    }
  }

  // ---------------------------------------------------------------
  // ASCII lower-casing
  // ---------------------------------------------------------------

  /**
   * `toLowerCase` restricted to A-Z. For deciding whether the lower-cased
   * text contains an all-ASCII lower-case word this is exact: no other
   * character lower-cases to an ASCII letter other than 'i' and 'k'.
   */
  function LowerAscii(s: string): (r: string)
    ensures |r| == |s|
    ensures forall i :: 0 <= i < |s| ==> r[i] == (if 'A' <= s[i] <= 'Z' then (s[i] as int + 32) as char else s[i])
  {
    if s == [] then []
    else [if 'A' <= s[0] <= 'Z' then (s[0] as int + 32) as char else s[0]] + LowerAscii(s[1..])
  }

  // ---------------------------------------------------------------
  // Decimal digits
  // ---------------------------------------------------------------

  predicate IsDigit(c: char)
  {
    '0' <= c <= '9'
  }

  function DigitChar(d: nat): (c: char)
    requires d < 10
    ensures IsDigit(c) && c as int - '0' as int == d
  {
    ('0' as int + d) as char
  }

  /** The value of a string of decimal digits. */
  function DigitsValue(s: string): nat
    requires forall i :: 0 <= i < |s| ==> IsDigit(s[i])
  {
    if s == [] then 0
    else
      assert IsDigit(s[|s| - 1]);
      10 * DigitsValue(s[..|s| - 1]) + (s[|s| - 1] as int - '0' as int)
  }

  /** `String(n)` for a natural number: its shortest decimal digits. */
  function NatString(n: nat): (r: string)
    ensures |r| > 0 && forall i :: 0 <= i < |r| ==> IsDigit(r[i])
    ensures DigitsValue(r) == n
    ensures r[0] != '0' || n == 0
  {
    if n < 10 then [DigitChar(n)]
    else
      var r := NatString(n / 10) + [DigitChar(n % 10)];
      assert r[..|r| - 1] == NatString(n / 10);
      r
  }

  /** `String(n)` for an integer, as used in template literals. */
  function IntString(n: int): (r: string)
    ensures |r| > 0 && !IsJsSpace(r[0])
  {
    if n < 0 then "-" + NatString(-n) else NatString(n)
  }

  /** `Math.round(ms / 1000)` for a non-negative duration: the nearest whole second, halves rounding up. */
  function RoundSeconds(ms: nat): (r: nat)
    ensures 1000 * r <= ms + 500 < 1000 * (r + 1)
  {
    (ms + 500) / 1000
  }
}
