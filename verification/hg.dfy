/** The Mercurial URL helpers: prefix tests that classify a build-context
    string as a Mercurial repository or transport, and the stripping of the
    "hg::" marker. Strings are sequences of characters; every prefix involved
    is ASCII, so matching characters and matching UTF-8 bytes agree. */
module UrlUtil {

  /** strings.HasPrefix. */
  predicate HasPrefix(s: string, prefix: string)
  {
    |prefix| <= |s| && s[..|prefix|] == prefix
  }

  /** The prefixes that mark a Mercurial repository URL, in the order tried. */
  const ValidHgPrefixes: seq<string> := ["hg::", "ssh://"]

  /** The loop of IsHgURL: true as soon as one of the prefixes matches. */
  function MatchesAnyPrefix(s: string, prefixes: seq<string>): (b: bool)
    ensures b <==> exists k :: 0 <= k < |prefixes| && HasPrefix(s, prefixes[k])
    decreases |prefixes|
  {
    if |prefixes| == 0 then false
    else if HasPrefix(s, prefixes[0]) then true
    else
      var b := MatchesAnyPrefix(s, prefixes[1..]);
      assert forall k :: 1 <= k < |prefixes| ==> prefixes[1..][k - 1] == prefixes[k];
      b
  }

  /** IsHgURL: true exactly for strings that start with "hg::" or "ssh://". */
  function IsHgURL(s: string): (b: bool)
    ensures b <==> HasPrefix(s, "hg::") || HasPrefix(s, "ssh://")
  {
    assert ValidHgPrefixes[0] == "hg::" && ValidHgPrefixes[1] == "ssh://";
    MatchesAnyPrefix(s, ValidHgPrefixes)
  }

  /** IsHgTransport, with IsURL given as `isURL` (its definition is not part
      of this model): a URL, or a string that starts with "hg::" or "hg@". */
  function IsHgTransport(s: string, isURL: string -> bool): (b: bool)
    ensures HasPrefix(s, "hg::") ==> b
    ensures HasPrefix(s, "hg@") ==> b
    ensures isURL(s) ==> b
    ensures !isURL(s) ==> (b <==> HasPrefix(s, "hg::") || HasPrefix(s, "hg@"))
  {
    isURL(s) || HasPrefix(s, "hg::") || HasPrefix(s, "hg@")
  }

  /** CleanHgURL: drops one leading "hg::", otherwise returns the string. */
  function CleanHgURL(s: string): (r: string)
    ensures HasPrefix(s, "hg::") ==> "hg::" + r == s
    ensures !HasPrefix(s, "hg::") ==> r == s
    ensures |r| == |s| || |r| == |s| - 4
    ensures r == s[|s| - |r|..]
  {
    if HasPrefix(s, "hg::") then s[4..] else s
  }

  /** Any string shorter than the shortest prefix is rejected; so is "". */
  lemma ShortStringsAreNotHgURLs(s: string)
    requires |s| < 4
    ensures !IsHgURL(s)
  {
  }

  /** Marking a string with "hg::" and cleaning it gives the string back. */
  lemma CleanHgURLRoundTrip(t: string)
    ensures CleanHgURL("hg::" + t) == t
  {
    assert HasPrefix("hg::" + t, "hg::");
  }

  /** A cleaned "hg::" URL, marked again, is the original. */
  lemma CleanHgURLMarkRoundTrip(s: string)
    requires HasPrefix(s, "hg::")
    ensures IsHgURL(s)
    ensures "hg::" + CleanHgURL(s) == s
  {
  }

  /** Only one marker is removed, so cleaning is not idempotent. */
  lemma CleanHgURLNotIdempotent()
    ensures CleanHgURL("hg::hg::x") == "hg::x"
    ensures CleanHgURL(CleanHgURL("hg::hg::x")) == "x"
  {
    assert HasPrefix("hg::hg::x", "hg::");
    assert "hg::hg::x"[4..] == "hg::x";
    assert HasPrefix("hg::x", "hg::");
    assert "hg::x"[4..] == "x";
  }

  /** Every "hg::" URL is a transport, whatever `isURL` says; an "ssh://" URL
      is one only when `isURL` accepts it. */
  lemma HgURLsAndTransports(s: string, isURL: string -> bool)
    ensures HasPrefix(s, "hg::") ==> IsHgURL(s) && IsHgTransport(s, isURL)
    ensures HasPrefix(s, "ssh://") && !isURL(s) ==> IsHgURL(s) && !IsHgTransport(s, isURL)
  {
    if HasPrefix(s, "ssh://") {
      assert s[0] == 's';
      assert !HasPrefix(s, "hg::") && !HasPrefix(s, "hg@") by {
        assert s[..|"hg::"|][0] == 's';
        assert s[..|"hg@"|][0] == 's';
      }
    }
  }
}
