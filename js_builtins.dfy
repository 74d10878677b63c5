/**
 * The small part of the JavaScript standard library that the application's
 * arithmetic and text handling depend on: `Math.round`, `Math.abs`,
 * `Math.max`, the whitespace class shared by `String.prototype.trim` and the
 * regular-expression escape `\s`, `indexOf`/`lastIndexOf` on one character,
 * and the decimal rendering of a non-negative integer in a template literal.
 * Numbers are exact reals; IEEE-754 rounding drift is not modelled.
 */
module JsBuiltins {
  import opened Wrappers

  /** `Math.round`: the nearest integer, with halves going toward +infinity. */
  function Round(x: real): (r: int)
    ensures x - 0.5 < r as real <= x + 0.5
  {
    (x + 0.5).Floor
  }

  predicate IsWhole(x: real) {
    x == x.Floor as real
  }

  /** Math.round leaves whole numbers as they are. */
  lemma RoundOfWhole(x: real)
    requires IsWhole(x)
    ensures Round(x) as real == x
  {
    assert Round(x) == x.Floor;
  }

  function Abs(x: real): (r: real)
    ensures r >= 0.0 && (r == x || r == -x)
  {
    if x < 0.0 then -x else x
  }

  function Max(a: real, b: real): (r: real)
    ensures r >= a && r >= b && (r == a || r == b)
  {
    if a < b then b else a
  }

  /**
   * The ECMAScript WhiteSpace and LineTerminator code points: tab, vertical
   * tab, form feed, the byte-order mark, every space separator of category
   * Zs, line feed, carriage return, and the line and paragraph separators.
   * `trim` removes exactly these, and `\s` matches exactly these.
   */
  predicate IsWhitespace(c: char) {
    || c == '\t' || c == '\n' || c == '\U{B}' || c == '\U{C}' || c == '\r'
    || c == ' ' || c == '\U{A0}' || c == '\U{1680}'
    || ('\U{2000}' <= c <= '\U{200A}')
    || c == '\U{2028}' || c == '\U{2029}' || c == '\U{202F}' || c == '\U{205F}'
    || c == '\U{3000}' || c == '\U{FEFF}'
  }

  predicate AllWhitespace(s: string) {
    forall i :: 0 <= i < |s| ==> IsWhitespace(s[i])
  }

  /** The length of the longest whitespace prefix. */
  function LeadingWhitespace(s: string): (n: nat)
    ensures n <= |s| && AllWhitespace(s[..n])
    ensures n < |s| ==> !IsWhitespace(s[n])
  {
    if |s| > 0 && IsWhitespace(s[0]) then
      var m := LeadingWhitespace(s[1..]);
      WhitespaceHeadJoins(s, m + 1);
      m + 1
    else
      0
  }

  /** A whitespace character in front of a whitespace prefix extends it by one. */
  lemma WhitespaceHeadJoins(s: string, n: nat)
    requires 0 < n <= |s| && IsWhitespace(s[0]) && AllWhitespace(s[1..][..n - 1])
    ensures AllWhitespace(s[..n]) && (n < |s| ==> s[1..][n - 1] == s[n])
  {
    forall i | 0 < i < n
      ensures IsWhitespace(s[i])
    {
      assert s[i] == s[1..][..n - 1][i - 1];
    }
  }

  /** Leading whitespace removed: the longest whitespace prefix is dropped. */
  function TrimStart(s: string): (r: string)
    ensures |r| <= |s| && r == s[|s| - |r|..]
    ensures AllWhitespace(s[..|s| - |r|])
    ensures r != [] ==> !IsWhitespace(r[0])
  {
    s[LeadingWhitespace(s)..]
  }

  /** Trailing whitespace removed: the longest whitespace suffix is dropped. */
  function TrimEnd(s: string): (r: string)
    ensures |r| <= |s| && r == s[..|r|]
    ensures AllWhitespace(s[|r|..])
    ensures r != [] ==> !IsWhitespace(r[|r| - 1])
  {
    if |s| > 0 && IsWhitespace(s[|s| - 1]) then
      var r := TrimEnd(s[..|s| - 1]);
      WhitespaceTailJoins(s, |r|);
      r
    else
      s
  }

  /** A whitespace character after a whitespace suffix extends it by one. */
  lemma WhitespaceTailJoins(s: string, n: nat)
    requires n < |s| && IsWhitespace(s[|s| - 1]) && AllWhitespace(s[..|s| - 1][n..])
    ensures AllWhitespace(s[n..]) && s[..|s| - 1][..n] == s[..n]
  {
    forall i | n <= i < |s| - 1
      ensures IsWhitespace(s[i])
    {
      assert s[i] == s[..|s| - 1][n..][i - n];
    }
  }

  /** `String.prototype.trim`. */
  function Trim(s: string): (r: string)
    ensures |r| <= |s|
  {
    TrimEnd(TrimStart(s))
  }

  /**
   * Trimming drops a whitespace prefix and a whitespace suffix and nothing
   * else, leaves no whitespace at either end, and is empty exactly when the
   * whole string is whitespace.
   */
  lemma TrimShape(s: string)
    ensures exists a, b :: 0 <= a <= b <= |s| && Trim(s) == s[a..b]
                        && AllWhitespace(s[..a]) && AllWhitespace(s[b..])
    ensures Trim(s) != [] ==> !IsWhitespace(Trim(s)[0]) && !IsWhitespace(Trim(s)[|Trim(s)| - 1])
    ensures Trim(s) == [] <==> AllWhitespace(s)
  {
    var a, b := TrimSpan(s);
    if Trim(s) == [] {
      WhitespaceHalves(s, a);
    }
  }

  /** The span of `s` that trimming keeps, with whitespace on either side of it. */
  lemma TrimSpan(s: string) returns (a: nat, b: nat)
    ensures a <= b <= |s| && Trim(s) == s[a..b]
    ensures AllWhitespace(s[..a]) && AllWhitespace(s[b..])
  {
    var t := TrimStart(s);
    a := |s| - |t|;
    var r := TrimEnd(t);
    b := a + |r|;
    assert r == s[a..b];
    assert s[b..] == t[|r|..];
  }

  /** A string whose two halves are whitespace is whitespace. */
  lemma WhitespaceHalves(s: string, a: nat)
    requires a <= |s| && AllWhitespace(s[..a]) && AllWhitespace(s[a..])
    ensures AllWhitespace(s)
  {
    forall i | 0 <= i < |s|
      ensures IsWhitespace(s[i])
    {
      if i < a {
        assert s[i] == s[..a][i];
      } else {
        assert s[i] == s[a..][i - a];
      }
    }
  }

  /** A string with no whitespace at either end is its own trim. */
  lemma TrimOfTrimmed(s: string)
    requires s != [] ==> !IsWhitespace(s[0]) && !IsWhitespace(s[|s| - 1])
    ensures Trim(s) == s
  {
  }

  /** `s.indexOf(c)`: the first position holding `c`, if any. */
  function IndexOf(s: string, c: char): (r: Option<nat>)
    ensures r.None? ==> forall k :: 0 <= k < |s| ==> s[k] != c
    ensures r.Some? ==> r.value < |s| && s[r.value] == c
                        && forall k :: 0 <= k < r.value ==> s[k] != c
  {
    if |s| == 0 then None
    else if s[0] == c then Some(0)
    else match IndexOf(s[1..], c)
      case None => None
      case Some(i) => Some(i + 1)
  }

  /** The first position holding `c` is what `indexOf` finds. */
  lemma IndexOfFirst(s: string, c: char, i: nat)
    requires i < |s| && s[i] == c && forall k :: 0 <= k < i ==> s[k] != c
    ensures IndexOf(s, c) == Some(i)
  {
  }

  /** The last position holding `c` is what `lastIndexOf` finds. */
  lemma LastIndexOfLast(s: string, c: char, j: nat)
    requires j < |s| && s[j] == c && forall k :: j < k < |s| ==> s[k] != c
    ensures LastIndexOf(s, c) == Some(j)
  {
  }

  /** After a prefix without `c`, the first `c` is the one that follows the prefix. */
  lemma IndexOfAfterPrefix(a: string, c: char, t: string)
    requires forall k :: 0 <= k < |a| ==> a[k] != c
    ensures IndexOf(a + [c] + t, c) == Some(|a|)
  {
    var s := a + [c] + t;
    assert s[|a|] == c;
    assert forall k :: 0 <= k < |a| ==> s[k] == a[k];
  }

  /** A text cut at its first `c` splits only one way: the parts before and after it are determined. */
  lemma SplitAtFirst(a: string, t: string, b: string, u: string, c: char)
    requires forall k :: 0 <= k < |a| ==> a[k] != c
    requires forall k :: 0 <= k < |b| ==> b[k] != c
    requires a + [c] + t == b + [c] + u
    ensures a == b && t == u
  {
    var s := a + [c] + t;
    IndexOfAfterPrefix(a, c, t);
    IndexOfAfterPrefix(b, c, u);
    assert a == s[..|a|] && b == s[..|b|];
    assert t == s[|a| + 1..] && u == s[|b| + 1..];
  }

  /** `s.lastIndexOf(c)`: the last position holding `c`, if any. */
  function LastIndexOf(s: string, c: char): (r: Option<nat>)
    ensures r.None? ==> forall k :: 0 <= k < |s| ==> s[k] != c
    ensures r.Some? ==> r.value < |s| && s[r.value] == c
                        && forall k :: r.value < k < |s| ==> s[k] != c
  {
    if |s| == 0 then None
    else if s[|s| - 1] == c then Some(|s| - 1)
    else LastIndexOf(s[..|s| - 1], c)
  }

  predicate IsDigit(c: char) {
    '0' <= c <= '9'
  }

  function DigitChar(d: nat): (c: char)
    requires d < 10
    ensures IsDigit(c)
  {
    ('0' as int + d) as char
  }

  /** The decimal text of a non-negative integer, as `${n}` renders it. */
  function NatToString(n: nat): (r: string)
    ensures |r| >= 1
    ensures forall i :: 0 <= i < |r| ==> IsDigit(r[i])
    ensures n >= 10 ==> |r| >= 2
  {
    if n < 10 then [DigitChar(n)] else NatToString(n / 10) + [DigitChar(n % 10)]
  }

  /** Different numbers have different decimal texts. */
  lemma {:induction false} NatToStringInjective(a: nat, b: nat)
    requires NatToString(a) == NatToString(b)
    ensures a == b
  {
    if a >= 10 && b >= 10 {
      var sa, sb := NatToString(a), NatToString(b);
      assert sa[|sa| - 1] == sb[|sb| - 1];
      assert a % 10 == b % 10;
      assert sa[..|sa| - 1] == NatToString(a / 10);
      assert sb[..|sb| - 1] == NatToString(b / 10);
      NatToStringInjective(a / 10, b / 10);
    }
  }
}
