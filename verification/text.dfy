/**
 * The string operations the condition matcher relies on: Kotlin's `trim`,
 * `isBlank`, `lowercase`, `equals(ignoreCase = true)`,
 * `contains(ignoreCase = true)` and `indexOfAny`.
 * Case folding covers the ASCII letters only.
 */
module Text {
  import opened Options

  /** Kotlin's `Char.isWhitespace`: Java whitespace plus the Unicode space separators. */
  predicate IsWhitespace(c: char) {
    || c == ' ' || c == '\t' || c == '\n' || c == '\r'
    || c == '\U{B}' || c == '\U{C}' || ('\U{1C}' <= c <= '\U{1F}')
    || c == '\U{A0}' || c == '\U{1680}' || ('\U{2000}' <= c <= '\U{200A}')
    || c == '\U{2028}' || c == '\U{2029}' || c == '\U{202F}' || c == '\U{205F}' || c == '\U{3000}'
  }

  predicate AllWhitespace(s: string) {
    forall i :: 0 <= i < |s| ==> IsWhitespace(s[i])
  }

  /** Kotlin's `isBlank`: a scan that fails at the first character that is not whitespace. */
  function IsBlank(s: string): (r: bool)
    ensures r <==> AllWhitespace(s)
    ensures s == [] ==> r
  {
    if s == [] then true
    else IsWhitespace(s[0]) && IsBlank(s[1..])
  }

  /** Index of the first character of `s` at or after `from` that is not whitespace. */
  function SkipLeading(s: string, from: nat): (k: nat)
    requires from <= |s|
    requires AllWhitespace(s[..from])
    ensures from <= k <= |s|
    ensures AllWhitespace(s[..k])
    ensures k < |s| ==> !IsWhitespace(s[k])
    decreases |s| - from
  {
    if from == |s| || !IsWhitespace(s[from]) then from
    else
      assert s[..from + 1] == s[..from] + [s[from]];
      SkipLeading(s, from + 1)
  }

  /** One past the last character of `s[..upTo]` that is not whitespace, never below `low`. */
  function SkipTrailing(s: string, low: nat, upTo: nat): (k: nat)
    requires low <= upTo <= |s|
    requires AllWhitespace(s[upTo..])
    ensures low <= k <= upTo
    ensures AllWhitespace(s[k..])
    ensures k > low ==> !IsWhitespace(s[k - 1])
    decreases upTo
  {
    if upTo == low || !IsWhitespace(s[upTo - 1]) then upTo
    else
      assert s[upTo - 1..] == [s[upTo - 1]] + s[upTo..];
      SkipTrailing(s, low, upTo - 1)
  }

  /**
   * Kotlin's `trim()`: the longest slice of `s` that neither starts nor ends
   * with whitespace, everything cut away on either side being whitespace.
   */
  function Trim(s: string): (r: string)
    ensures |r| <= |s|
    ensures r == [] || (!IsWhitespace(r[0]) && !IsWhitespace(r[|r| - 1]))
    ensures exists a, b :: 0 <= a <= b <= |s| && r == s[a..b] && AllWhitespace(s[..a]) && AllWhitespace(s[b..])
  {
    var a := SkipLeading(s, 0);
    var b := SkipTrailing(s, a, |s|);
    s[a..b]
  }

  /** ASCII lower-casing of one character. */
  function LowerChar(c: char): (d: char)
    ensures 'A' <= c <= 'Z' ==> 'a' <= d <= 'z'
    ensures !('A' <= c <= 'Z') ==> d == c
  {
    if 'A' <= c <= 'Z' then (c as int + 32) as char else c
  }

  /** `lowercase()`, on the ASCII letters. */
  function Lower(s: string): (r: string)
    ensures |r| == |s|
    ensures forall i :: 0 <= i < |s| ==> r[i] == LowerChar(s[i])
  {
    seq(|s|, i requires 0 <= i < |s| => LowerChar(s[i]))
  }

  /** `equals(other, ignoreCase = true)`. */
  predicate EqualsIgnoreCase(a: string, b: string) {
    |a| == |b| && forall i :: 0 <= i < |a| ==> LowerChar(a[i]) == LowerChar(b[i])
  }

  /** `needle` occurs in `hay` at position `i`, ignoring case. */
  predicate MatchesAt(hay: string, needle: string, i: int) {
    0 <= i && i + |needle| <= |hay| && EqualsIgnoreCase(hay[i..i + |needle|], needle)
  }

  /** `hay.contains(needle, ignoreCase = true)`, scanning positions from `from` on. */
  function ContainsFrom(hay: string, needle: string, from: nat): (r: bool)
    ensures r <==> exists i :: from <= i && MatchesAt(hay, needle, i)
    decreases |hay| - from
  {
    if from + |needle| > |hay| then false
    else MatchesAt(hay, needle, from) || ContainsFrom(hay, needle, from + 1)
  }

  function ContainsIgnoreCase(hay: string, needle: string): (r: bool)
    ensures r <==> exists i :: MatchesAt(hay, needle, i)
  {
    ContainsFrom(hay, needle, 0)
  }

  predicate IsSeparator(c: char) {
    c == ':' || c == '='
  }

  /** `indexOfAny(charArrayOf(':', '='))` searched from `from`; `None` stands for -1. */
  function FirstSeparatorFrom(s: string, from: nat): (r: Option<nat>)
    requires from <= |s|
    ensures r.Some? ==> from <= r.value < |s| && IsSeparator(s[r.value])
    ensures r.Some? ==> forall j :: from <= j < r.value ==> !IsSeparator(s[j])
    ensures r.None? ==> forall j :: from <= j < |s| ==> !IsSeparator(s[j])
    decreases |s| - from
  {
    if from == |s| then None
    else if IsSeparator(s[from]) then Some(from)
    else FirstSeparatorFrom(s, from + 1)
  }

  function FirstSeparator(s: string): (r: Option<nat>)
    ensures r.Some? ==> r.value < |s| && IsSeparator(s[r.value]) && forall j :: 0 <= j < r.value ==> !IsSeparator(s[j])
    ensures r.None? ==> forall j :: 0 <= j < |s| ==> !IsSeparator(s[j])
  {
    FirstSeparatorFrom(s, 0)
  }

  /** Ignoring case is the same as comparing the lower-cased strings. */
  lemma EqualsIgnoreCaseIsLowerEquality(a: string, b: string)
    ensures EqualsIgnoreCase(a, b) <==> Lower(a) == Lower(b)
  {
    if Lower(a) == Lower(b) {
      assert |a| == |b|;
      forall i | 0 <= i < |a| ensures LowerChar(a[i]) == LowerChar(b[i]) {
        assert Lower(a)[i] == Lower(b)[i];
      }
    }
  }

  /** A string always matches itself ignoring case, and so contains itself. */
  lemma ContainsItself(s: string)
    ensures EqualsIgnoreCase(s, s)
    ensures ContainsIgnoreCase(s, s)
  {
    assert s[0..|s|] == s;
    assert MatchesAt(s, s, 0);
  }

  /** Trimming twice changes nothing more. */
  lemma TrimIdempotent(s: string)
    ensures Trim(Trim(s)) == Trim(s)
  {
    var t := Trim(s);
    var a := SkipLeading(t, 0);
    if |t| > 0 {
      assert !IsWhitespace(t[0]);
      assert a == 0;
      var b := SkipTrailing(t, 0, |t|);
      assert !IsWhitespace(t[|t| - 1]);
      assert t[|t|..] == [];
      assert b == |t|;
    }
  }
}
