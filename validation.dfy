/**
 * `isValidInstagramUrl`: the anchored pattern
 * `https://` (`www.`)? `instagram.com/` (`reel` | `p`) `/` [A-Za-z0-9_-]+ `/`?
 * as a hand-written recogniser, next to a declarative description of the
 * strings it accepts, and the proof that the two agree.
 */
module Validation {

  const Scheme: string := "https://"
  const WwwPrefix: string := "www."
  const Host: string := "instagram.com/"
  const ReelKind: string := "reel"
  const PostKind: string := "p"

  predicate StartsWith(s: string, p: string) {
    |p| <= |s| && s[..|p|] == p
  }

  /** The characters of `[A-Za-z0-9_-]`. */
  predicate IsIdChar(c: char) {
    ('A' <= c <= 'Z') || ('a' <= c <= 'z') || ('0' <= c <= '9') || c == '_' || c == '-'
  }

  /** One or more characters of `[A-Za-z0-9_-]`. */
  predicate IsId(t: string) {
    |t| > 0 && forall i :: 0 <= i < |t| ==> IsIdChar(t[i])
  }

  // ---------------------------------------------------------------- recogniser

  /** The length of the longest prefix of `t` made of identifier characters. */
  function IdPrefixLength(t: string): (n: nat)
    ensures n <= |t|
    ensures forall i :: 0 <= i < n ==> IsIdChar(t[i])
    ensures n < |t| ==> !IsIdChar(t[n])
  {
    if t != [] && IsIdChar(t[0]) then 1 + IdPrefixLength(t[1..]) else 0
  }

  /** The rest of the input after the content kind: an identifier, then at most one `/`. */
  predicate MatchId(t: string) {
    var n := IdPrefixLength(t);
    n > 0 && (t[n..] == [] || t[n..] == "/")
  }

  /** After `instagram.com/`: `reel/` or `p/`, then the identifier part. */
  predicate MatchPath(t: string) {
    if StartsWith(t, ReelKind + "/") then MatchId(t[|ReelKind| + 1..])
    else if StartsWith(t, PostKind + "/") then MatchId(t[|PostKind| + 1..])
    else false
  }

  /** After the scheme: an optional `www.`, then `instagram.com/` and the path. */
  predicate MatchHost(t: string) {
    var u := if StartsWith(t, WwwPrefix) then t[|WwwPrefix|..] else t;
    StartsWith(u, Host) && MatchPath(u[|Host|..])
  }

  /** `isValidInstagramUrl(url)`, scanning the input left to right. */
  predicate IsValidInstagramUrl(s: string) {
    StartsWith(s, Scheme) && MatchHost(s[|Scheme|..])
  }

  // --------------------------------------------------------- declarative form

  /** The URL built from its four free choices. */
  function UrlOf(www: bool, kind: string, id: string, slash: bool): string {
    Scheme + ((if www then WwwPrefix else "") + (Host + (kind + ("/" + (id + (if slash then "/" else ""))))))
  }

  /** The language of the pattern: every way of making the four choices. */
  ghost predicate InUrlLanguage(s: string) {
    exists www: bool, kind: string, id: string, slash: bool ::
      (kind == ReelKind || kind == PostKind) && IsId(id) && s == UrlOf(www, kind, id, slash)
  }

  lemma StartsWithAppend(p: string, q: string)
    ensures StartsWith(p + q, p) && (p + q)[|p|..] == q
  {
    assert (p + q)[..|p|] == p;
  }

  lemma SplitAtPrefix(s: string, p: string)
    requires StartsWith(s, p)
    ensures s == p + s[|p|..]
  {
    assert s == s[..|p|] + s[|p|..];
  }

  lemma IdPrefixAt(t: string, id: string)
    requires IsId(id) && StartsWith(t, id) && (|t| > |id| ==> !IsIdChar(t[|id|]))
    ensures IdPrefixLength(t) == |id|
  {
    var n := IdPrefixLength(t);
    assert forall i :: 0 <= i < |id| ==> t[i] == id[i];
  }

  /** An identifier followed by an optional slash is what MatchId accepts. */
  lemma MatchIdOf(id: string, slash: bool)
    requires IsId(id)
    ensures MatchId(id + (if slash then "/" else ""))
  {
    var t := id + (if slash then "/" else "");
    StartsWithAppend(id, if slash then "/" else "");
    IdPrefixAt(t, id);
  }

  lemma MatchPathOf(kind: string, id: string, slash: bool)
    requires kind == ReelKind || kind == PostKind
    requires IsId(id)
    ensures MatchPath(kind + ("/" + (id + (if slash then "/" else ""))))
  {
    var tail := id + (if slash then "/" else "");
    var path := kind + ("/" + tail);
    assert path == (kind + "/") + tail;
    StartsWithAppend(kind + "/", tail);
    if kind == PostKind {
      assert path[0] == 'p';
    }
    MatchIdOf(id, slash);
  }

  lemma MatchHostOf(www: bool, path: string)
    requires MatchPath(path)
    ensures MatchHost((if www then WwwPrefix else "") + (Host + path))
  {
    var afterHost := Host + path;
    StartsWithAppend(Host, path);
    if www {
      StartsWithAppend(WwwPrefix, afterHost);
    } else {
      assert "" + afterHost == afterHost;
      assert !StartsWith(afterHost, WwwPrefix) by { assert afterHost[0] == 'i'; }
    }
  }

  /** Every string of the language is accepted by the recogniser. */
  lemma AcceptsUrlOf(www: bool, kind: string, id: string, slash: bool)
    requires kind == ReelKind || kind == PostKind
    requires IsId(id)
    ensures IsValidInstagramUrl(UrlOf(www, kind, id, slash))
  {
    var path := kind + ("/" + (id + (if slash then "/" else "")));
    MatchPathOf(kind, id, slash);
    MatchHostOf(www, path);
    StartsWithAppend(Scheme, (if www then WwwPrefix else "") + (Host + path));
  }

  /** What MatchId accepts is an identifier followed by an optional slash. */
  lemma MatchIdParts(w: string) returns (id: string, slash: bool)
    requires MatchId(w)
    ensures IsId(id) && w == id + (if slash then "/" else "")
  {
    var n := IdPrefixLength(w);
    id := w[..n];
    slash := w[n..] == "/";
    assert w == w[..n] + w[n..];
  }

  lemma MatchPathParts(v: string) returns (kind: string, id: string, slash: bool)
    requires MatchPath(v)
    ensures kind == ReelKind || kind == PostKind
    ensures IsId(id) && v == kind + ("/" + (id + (if slash then "/" else "")))
  {
    kind := if StartsWith(v, ReelKind + "/") then ReelKind else PostKind;
    SplitAtPrefix(v, kind + "/");
    id, slash := MatchIdParts(v[|kind| + 1..]);
  }

  lemma MatchHostParts(t: string) returns (www: bool, path: string)
    requires MatchHost(t)
    ensures MatchPath(path) && t == (if www then WwwPrefix else "") + (Host + path)
  {
    www := StartsWith(t, WwwPrefix);
    var u := if www then t[|WwwPrefix|..] else t;
    if www { SplitAtPrefix(t, WwwPrefix); }
    SplitAtPrefix(u, Host);
    path := u[|Host|..];
  }

  /** The four choices behind an accepted string, read off the scan. */
  lemma AcceptedParts(s: string) returns (www: bool, kind: string, id: string, slash: bool)
    requires IsValidInstagramUrl(s)
    ensures kind == ReelKind || kind == PostKind
    ensures IsId(id) && s == UrlOf(www, kind, id, slash)
  {
    SplitAtPrefix(s, Scheme);
    var path;
    www, path := MatchHostParts(s[|Scheme|..]);
    kind, id, slash := MatchPathParts(path);
  }

  /** Every accepted string is in the language. */
  lemma AcceptedIsInLanguage(s: string)
    requires IsValidInstagramUrl(s)
    ensures InUrlLanguage(s)
  {
    var www, kind, id, slash := AcceptedParts(s);
  }

  /** The recogniser accepts exactly the language of the pattern. */
  lemma RecogniserMatchesLanguage(s: string)
    ensures IsValidInstagramUrl(s) <==> InUrlLanguage(s)
  {
    if IsValidInstagramUrl(s) {
      AcceptedIsInLanguage(s);
    }
    if InUrlLanguage(s) {
      var www: bool, kind: string, id: string, slash: bool :|
        (kind == ReelKind || kind == PostKind) && IsId(id) && s == UrlOf(www, kind, id, slash);
      AcceptsUrlOf(www, kind, id, slash);
    }
  }

  /** The characters an accepted URL is made of. */
  predicate IsUrlChar(c: char) {
    IsIdChar(c) || c == ':' || c == '/' || c == '.'
  }

  /** Every character of `s` is a URL character. */
  predicate AllUrlChars(s: string) {
    forall c :: c in s ==> IsUrlChar(c)
  }

  lemma AllUrlCharsAppend(a: string, b: string)
    requires AllUrlChars(a) && AllUrlChars(b)
    ensures AllUrlChars(a + b)
  {
  }

  lemma FixedPartsAreUrlChars()
    ensures AllUrlChars(Scheme) && AllUrlChars(WwwPrefix) && AllUrlChars(Host)
    ensures AllUrlChars(ReelKind) && AllUrlChars(PostKind) && AllUrlChars("/") && AllUrlChars("")
  {
  }

  /**
   * An accepted URL consists of identifier characters, `:`, `/` and `.` only:
   * in particular it holds no whitespace and no `?`.
   */
  lemma AcceptedCharacters(s: string)
    requires IsValidInstagramUrl(s)
    ensures AllUrlChars(s)
    ensures forall i :: 0 <= i < |s| ==> IsUrlChar(s[i])
  {
    var www, kind, id, slash := AcceptedParts(s);
    FixedPartsAreUrlChars();
    var tail := id + (if slash then "/" else "");
    AllUrlCharsAppend(id, if slash then "/" else "");
    AllUrlCharsAppend("/", tail);
    AllUrlCharsAppend(kind, "/" + tail);
    AllUrlCharsAppend(Host, kind + ("/" + tail));
    AllUrlCharsAppend(if www then WwwPrefix else "", Host + (kind + ("/" + tail)));
    AllUrlCharsAppend(Scheme, (if www then WwwPrefix else "") + (Host + (kind + ("/" + tail))));
  }

  /** Accepted: a reel, with `www.` and a final slash. */
  lemma AcceptedReelExample()
    ensures IsValidInstagramUrl("https://www.instagram.com/reel/ABC123/")
  {
    var u := "https://www.instagram.com/reel/ABC123/";
    assert u == Scheme + (WwwPrefix + (Host + (ReelKind + ("/" + ("ABC123" + "/")))));
    AcceptsUrlOf(true, ReelKind, "ABC123", true);
  }

  /** Accepted: a post, without `www.` and without a final slash. */
  lemma AcceptedPostExample()
    ensures IsValidInstagramUrl("https://instagram.com/p/xyz_-9")
  {
    var u := "https://instagram.com/p/xyz_-9";
    assert u == Scheme + ("" + (Host + (PostKind + ("/" + ("xyz_-9" + "")))));
    AcceptsUrlOf(false, PostKind, "xyz_-9", false);
  }

  /** The wrong scheme is rejected. */
  lemma RejectedSchemeExample()
    ensures !IsValidInstagramUrl("http://instagram.com/reel/abc/")
  {
    var u := "http://instagram.com/reel/abc/";
    assert u[..|Scheme|] != Scheme by { assert u[4] != Scheme[4]; }
  }

  /** The empty string is rejected. */
  lemma RejectedEmptyExample()
    ensures !IsValidInstagramUrl("")
  {
  }

  /** A path that is neither `reel/…` nor `p/…` followed by an identifier is rejected. */
  lemma RejectsPath(path: string)
    requires !MatchPath(path)
    ensures !IsValidInstagramUrl(Scheme + (Host + path))
  {
    var afterScheme := Host + path;
    StartsWithAppend(Host, path);
    assert !StartsWith(afterScheme, WwwPrefix) by { assert afterScheme[0] == 'i'; }
    StartsWithAppend(Scheme, afterScheme);
  }

  /** A URL with a `?` anywhere in it is rejected. */
  lemma RejectsQuestionMark(s: string, i: nat)
    requires i < |s| && s[i] == '?'
    ensures !IsValidInstagramUrl(s)
  {
    if IsValidInstagramUrl(s) {
      AcceptedCharacters(s);
    }
  }

  lemma StoryUrlParts()
    ensures "https://instagram.com/story/abc/" == Scheme + (Host + "story/abc/")
  {
  }

  lemma EmptyIdUrlParts()
    ensures "https://instagram.com/reel/" == Scheme + (Host + "reel/")
  {
  }

  /** A path other than `reel` or `p` is rejected. */
  lemma RejectedStoryExample()
    ensures !IsValidInstagramUrl("https://instagram.com/story/abc/")
  {
    var path := "story/abc/";
    assert !MatchPath(path) by {
      assert !StartsWith(path, ReelKind + "/") by { assert path[0] != (ReelKind + "/")[0]; }
      assert !StartsWith(path, PostKind + "/") by { assert path[0] != (PostKind + "/")[0]; }
    }
    RejectsPath(path);
    StoryUrlParts();
  }

  /** An empty identifier is rejected. */
  lemma RejectedEmptyIdExample()
    ensures !IsValidInstagramUrl("https://instagram.com/reel/")
  {
    var path := "reel/";
    assert path[|ReelKind| + 1..] == [];
    RejectsPath(path);
    EmptyIdUrlParts();
  }

  /** A query string that is not preceded by a slash is rejected. */
  lemma RejectedQueryExample()
    ensures !IsValidInstagramUrl("https://www.instagram.com/reel/ABC?igsh=1")
  {
    RejectsQuestionMark("https://www.instagram.com/reel/ABC?igsh=1", 34);
  }
}
