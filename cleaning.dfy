/**
 * The cleaning step at the head of `handleSubmit`: the input is trimmed and
 * then cut at the first `/?`, which drops the tracking query a shared link
 * carries.
 */
module Cleaning {
  import opened Strings
  import Validation

  /** The two characters at which the tracking part of a shared link begins. */
  const TrackingMarker: string := "/?"

  /**
   * The strip step: `s` up to (not including) the first `/?`, or all of `s`
   * when it holds none. What it returns never contains `/?`.
   */
  function StripTracking(s: string): (r: string)
    ensures !Contains(s, TrackingMarker) ==> r == s
    ensures forall i :: OccursAt(s, TrackingMarker, i)
                        && (forall j :: 0 <= j < i ==> !OccursAt(s, TrackingMarker, j))
                        ==> r == s[..i]
    ensures !Contains(r, TrackingMarker)
  {
    var k := IndexOf(s, TrackingMarker);
    if k == -1 then
      s
    else
      forall j | OccursAt(s[..k], TrackingMarker, j) ensures false {
        OccurrenceInPrefix(s, TrackingMarker, k, j);
      }
      s[..k]
  }

  /**
   * The cleaned URL `handleSubmit` validates and sends: trim, then strip. It
   * is a prefix of the trimmed input, holds no `/?`, and is the whole trimmed
   * input when that holds none; blank input cleans to nothing.
   */
  function CleanUrl(raw: string): (r: string)
    ensures r <= Trim(raw) && !Contains(r, TrackingMarker)
    ensures !Contains(Trim(raw), TrackingMarker) ==> r == Trim(raw)
    ensures (forall i :: 0 <= i < |raw| ==> IsWhitespace(raw[i])) ==> r == []
  {
    StripTracking(Trim(raw))
  }

  /** The strip step on its own is idempotent. */
  lemma StripIdempotent(s: string)
    ensures StripTracking(StripTracking(s)) == StripTracking(s)
  {
  }

  /**
   * Cleaning a cleaned URL again only trims it: the strip step has nothing
   * left to cut, but cutting may have exposed whitespace before the `/?`.
   */
  lemma CleanTwice(raw: string)
    ensures CleanUrl(CleanUrl(raw)) == Trim(CleanUrl(raw))
  {
    TrimKeepsAbsence(CleanUrl(raw), TrackingMarker);
  }

  /** Cleaning as a whole is not idempotent: `"a /?x"` cleans to `"a "`, and that to `"a"`. */
  lemma CleanNotIdempotent()
    ensures CleanUrl("a /?x") == "a "
    ensures CleanUrl(CleanUrl("a /?x")) == "a"
  {
    var s := "a /?x";
    TrimOfTrimmed(s);
    assert OccursAt(s, TrackingMarker, 2) by { assert s[2..4] == TrackingMarker; }
    assert !OccursAt(s, TrackingMarker, 0) by { assert s[0..2][0] == 'a' != TrackingMarker[0]; }
    assert !OccursAt(s, TrackingMarker, 1) by { assert s[1..3][0] == ' ' != TrackingMarker[0]; }
    assert StripTracking(s) == s[..2] == "a ";
    assert LeadingWhitespace("a ") == 0;
    assert TrailingWhitespace("a ") == 1 by { assert TrailingWhitespace("a ") == 1 + TrailingWhitespace("a"); }
    assert Trim("a ") == "a";
    assert !OccursAt("a", TrackingMarker, 0);
  }

  /** A string without surrounding whitespace and without `?` is left as it is. */
  lemma CleanKeepsPlain(u: string)
    requires u != [] ==> !IsWhitespace(u[0]) && !IsWhitespace(u[|u| - 1])
    requires '?' !in u
    ensures CleanUrl(u) == u
  {
    TrimOfTrimmed(u);
    forall i | 0 <= i && i + 2 <= |u| ensures !OccursAt(u, TrackingMarker, i) {
      assert u[i..i + 2][1] == u[i + 1];
    }
  }

  /** A valid URL holds no whitespace and no `?`, so cleaning leaves it as it is. */
  lemma ValidUrlIsClean(u: string)
    requires Validation.IsValidInstagramUrl(u)
    ensures CleanUrl(u) == u
  {
    Validation.AcceptedCharacters(u);
    assert !Validation.IsUrlChar('?');
    if u != [] {
      assert !IsWhitespace(u[0]) && !IsWhitespace(u[|u| - 1]);
    }
    CleanKeepsPlain(u);
  }

  /**
   * Trimming `u + "/?" + query` keeps `u + "/?"` in front whenever `u` starts
   * with a character that is not whitespace: the trailing whitespace cannot
   * reach back past the `?`.
   */
  lemma TrimKeepsMarkedPrefix(u: string, query: string)
    requires u != [] && !IsWhitespace(u[0])
    ensures var t := Trim(u + TrackingMarker + query);
      |u| + 2 <= |t| && t[..|u| + 2] == u + TrackingMarker
  {
    var a := u + TrackingMarker;
    var s := a + query;
    assert s == u + TrackingMarker + query;
    assert s[0] == u[0];
    assert LeadingWhitespace(s) == 0;
    assert a[|a| - 1] == '?';
    TrailingWhitespaceWithin(a, query);
    var t := Trim(s);
    assert t == s[..|s| - TrailingWhitespace(s)];
    assert t[..|a|] == a;
  }

  /** Stripping a string that starts with `u + "/?"`, where `u` holds no `?`, leaves `u`. */
  lemma StripAfterLink(u: string, t: string)
    requires forall i :: 0 <= i < |u| ==> u[i] != '?'
    requires |u| + 2 <= |t| && t[..|u| + 2] == u + TrackingMarker
    ensures StripTracking(t) == u
  {
    assert t[|u|] == '/' && t[|u| + 1] == '?';
    assert OccursAt(t, TrackingMarker, |u|) by { assert t[|u|..|u| + 2] == TrackingMarker; }
    forall j | 0 <= j < |u| ensures !OccursAt(t, TrackingMarker, j) {
      assert t[j + 1] != '?' by {
        if j + 1 < |u| {
          assert t[j + 1] == (u + TrackingMarker)[j + 1] == u[j + 1];
        }
      }
      assert t[j..j + 2][1] == t[j + 1];
    }
    assert t[..|u|] == (u + TrackingMarker)[..|u|] == u;
  }

  /**
   * A valid link followed by `/?` and a tracking query, with or without a
   * final slash before it and whatever the query ends with (a pasted newline
   * included), is cleaned back to the link itself.
   */
  lemma CleanDropsTrackingQuery(u: string, query: string)
    requires Validation.IsValidInstagramUrl(u)
    ensures CleanUrl(u + TrackingMarker + query) == u
  {
    Validation.AcceptedCharacters(u);
    assert !Validation.IsUrlChar('?');
    assert u != [] by { assert Validation.StartsWith(u, Validation.Scheme); }
    assert !IsWhitespace(u[0]);
    TrimKeepsMarkedPrefix(u, query);
    StripAfterLink(u, Trim(u + TrackingMarker + query));
  }
}
