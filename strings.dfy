/**
 * The JavaScript string built-ins the page relies on: `String.prototype.trim`,
 * `String.prototype.indexOf` and `String.prototype.padStart`, over `seq<char>`.
 */
module Strings {

  /** The characters `trim` removes: the ECMAScript WhiteSpace and LineTerminator code points. */
  predicate IsWhitespace(c: char) {
    c == '\t' || c == '\n' || c == '\U{B}' || c == '\U{C}' || c == '\r' || c == ' '
    || c == '\U{A0}' || c == '\U{1680}' || ('\U{2000}' <= c <= '\U{200A}')
    || c == '\U{2028}' || c == '\U{2029}' || c == '\U{202F}' || c == '\U{205F}'
    || c == '\U{3000}' || c == '\U{FEFF}'
  }

  /** The number of whitespace characters `s` starts with. */
  function LeadingWhitespace(s: string): (n: nat)
    ensures n <= |s|
    ensures forall i :: 0 <= i < n ==> IsWhitespace(s[i])
    ensures n < |s| ==> !IsWhitespace(s[n])
  {
    if s != [] && IsWhitespace(s[0]) then 1 + LeadingWhitespace(s[1..]) else 0
  }

  /** The number of whitespace characters `s` ends with. */
  function TrailingWhitespace(s: string): (n: nat)
    ensures n <= |s|
    ensures forall i :: |s| - n <= i < |s| ==> IsWhitespace(s[i])
    ensures n < |s| ==> !IsWhitespace(s[|s| - 1 - n])
  {
    if s != [] && IsWhitespace(s[|s| - 1]) then 1 + TrailingWhitespace(s[..|s| - 1]) else 0
  }

  /**
   * `s.trim()`: the factor of `s` between its leading and its trailing
   * whitespace; a string of whitespace only trims to the empty string.
   */
  function Trim(s: string): (r: string)
    ensures |r| <= |s|
    ensures r == [] <==> forall i :: 0 <= i < |s| ==> IsWhitespace(s[i])
    ensures r != [] ==> !IsWhitespace(r[0]) && !IsWhitespace(r[|r| - 1])
    ensures r != [] ==> r == s[LeadingWhitespace(s)..|s| - TrailingWhitespace(s)]
  {
    var lo := LeadingWhitespace(s);
    if lo == |s| then
      []
    else
      var hi := |s| - TrailingWhitespace(s);
      assert lo < hi;
      s[lo..hi]
  }

  /** A string that neither starts nor ends with whitespace is its own trim. */
  lemma TrimOfTrimmed(s: string)
    requires s != [] ==> !IsWhitespace(s[0]) && !IsWhitespace(s[|s| - 1])
    ensures Trim(s) == s
  {
  }

  /** After a character that is not whitespace, the trailing whitespace lies wholly in what follows it. */
  lemma {:induction false} TrailingWhitespaceWithin(a: string, b: string)
    requires a != [] && !IsWhitespace(a[|a| - 1])
    ensures TrailingWhitespace(a + b) <= |b|
  {
    if b == [] {
      assert a + b == a;
    } else if IsWhitespace(b[|b| - 1]) {
      assert (a + b)[..|a + b| - 1] == a + b[..|b| - 1];
      TrailingWhitespaceWithin(a, b[..|b| - 1]);
    }
  }

  /** `trim` is idempotent. */
  lemma TrimIdempotent(s: string)
    ensures Trim(Trim(s)) == Trim(s)
  {
    TrimOfTrimmed(Trim(s));
  }

  /** `p` occurs in `s` starting at index `i`. */
  predicate OccursAt(s: string, p: string, i: int) {
    0 <= i && i + |p| <= |s| && s[i..i + |p|] == p
  }

  /** `p` occurs somewhere in `s` (JavaScript's `s.includes(p)`). */
  predicate Contains(s: string, p: string) {
    exists i | 0 <= i <= |s| :: OccursAt(s, p, i)
  }

  /** An occurrence in `s[1..]` is an occurrence in `s`, one position later. */
  lemma OccursInTail(s: string, p: string, i: nat)
    requires s != []
    ensures OccursAt(s[1..], p, i) <==> OccursAt(s, p, i + 1)
  {
    if 0 <= i && i + 1 + |p| <= |s| {
      assert s[1..][i..i + |p|] == s[i + 1..i + 1 + |p|];
    }
  }

  /**
   * `s.indexOf(p)`: the first index at which `p` occurs in `s`, or -1 exactly
   * when `p` does not occur at all.
   */
  function IndexOf(s: string, p: string): (r: int)
    ensures r == -1 <==> !Contains(s, p)
    ensures r != -1 ==> OccursAt(s, p, r) && forall i :: 0 <= i < r ==> !OccursAt(s, p, i)
  {
    if |s| < |p| then
      assert forall i :: !OccursAt(s, p, i);
      -1
    else if s[..|p|] == p then
      assert OccursAt(s, p, 0) by { assert s[0..|p|] == s[..|p|]; }
      0
    else
      assert !OccursAt(s, p, 0) by { assert s[0..|p|] == s[..|p|]; }
      var k := IndexOf(s[1..], p);
      forall i | OccursAt(s, p, i) ensures i >= 1 && OccursAt(s[1..], p, i - 1) {
        OccursInTail(s, p, i - 1);
      }
      if k == -1 then
        -1
      else
        OccursInTail(s, p, k);
        k + 1
  }

  /** A factor of a string in which `p` does not occur does not contain `p` either. */
  lemma NoOccurrenceInFactor(s: string, p: string, lo: int, hi: int)
    requires 0 <= lo <= hi <= |s|
    requires !Contains(s, p)
    ensures !Contains(s[lo..hi], p)
  {
    forall i | OccursAt(s[lo..hi], p, i) ensures OccursAt(s, p, lo + i) {
      var w := s[lo..hi][i..i + |p|];
      forall j | 0 <= j < |w| ensures w[j] == s[lo + i + j] {
      }
      assert w == s[lo + i..lo + i + |p|];
    }
  }

  /** Trimming cannot create an occurrence of a pattern. */
  lemma TrimKeepsAbsence(s: string, p: string)
    requires !Contains(s, p)
    ensures !Contains(Trim(s), p)
  {
    var t := Trim(s);
    if t != [] {
      NoOccurrenceInFactor(s, p, LeadingWhitespace(s), |s| - TrailingWhitespace(s));
    } else {
      assert forall i :: OccursAt(t, p, i) ==> OccursAt(s, p, i);
    }
  }

  /**
   * `s.padStart(width, fill)` for a one-character fill: `s` itself when it is
   * already `width` long, otherwise `s` preceded by enough copies of `fill`.
   */
  function PadStart(s: string, width: nat, fill: char): (r: string)
    ensures |r| == if |s| >= width then |s| else width
    ensures r[|r| - |s|..] == s
    ensures forall i :: 0 <= i < |r| - |s| ==> r[i] == fill
    decreases width - |s|
  {
    if |s| >= width then s else PadStart([fill] + s, width, fill)
  }

  /** An occurrence inside the prefix `s[..n]` is an occurrence in `s` that ends by `n`. */
  lemma OccurrenceInPrefix(s: string, p: string, n: nat, j: int)
    requires n <= |s| && OccursAt(s[..n], p, j)
    ensures OccursAt(s, p, j) && j + |p| <= n
  {
    assert s[..n][j..j + |p|] == s[j..j + |p|];
  }
}
