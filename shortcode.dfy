/**
 * Post URLs and shortcodes: the normalisation `url.split("/p/")[-1].split("/")[0]`
 * used when scraping a post, and the filter that turns the links found on a
 * hashtag page into a set of canonical post URLs.
 */
module Shortcode {
  import opened Wrappers
  import opened Text

  /** The path segment that introduces a post's shortcode. */
  const Marker := "/p/"

  /** Every canonical post URL starts with this. */
  const PostPrefix := "https://www.instagram.com/p/"

  /** `url.split("/p/")[-1].split("/")[0]` */
  function ShortcodeOf(u: string): (sc: string)
    ensures '/' !in sc
  {
    var sc := Split(Last(Split(u, Marker)), "/")[0];
    SplitHead(Last(Split(u, Marker)), "/");
    ContainsChar(sc, '/');
    sc
  }

  /**
   * The shortcode is the text after the last "/p/" taken by a left-to-right
   * split (the whole URL when there is none), up to the first "/" (or to
   * the end when there is none).
   */
  lemma ShortcodeIsLastSegment(u: string)
    ensures var j := LastPieceStart(u, Marker);
      var sc := ShortcodeOf(u);
      (j == 0 || (3 <= j && u[j - 3..j] == Marker)) &&
      !Contains(u[j..], Marker) && sc <= u[j..] &&
      (|sc| == |u| - j || u[j + |sc|] == '/')
  {
    LastPieceAfterSep(u, Marker);
    var tail := Last(Split(u, Marker));
    LastPieceIsSuffix(u, Marker);
    SplitPiecesFree(u, Marker);
    var sc := Split(tail, "/")[0];
    SplitHead(tail, "/");
    OccursAtChars(tail, "/", |sc|);
  }

  /** The shortcode of a post as `scrape_post` computes it: only inputs containing "http" are parsed. */
  function Normalise(u: string): string
  {
    if Contains(u, "http") then ShortcodeOf(u) else u
  }

  /** A URL is cut down to a shortcode without "/"; anything else is used as it is. */
  lemma NormaliseCases(u: string)
    ensures !Contains(u, "http") ==> Normalise(u) == u
    ensures Contains(u, "http") ==> '/' !in Normalise(u)
  {
  }

  /** The canonical URL of a post. */
  function BaseUrl(sc: string): (u: string)
    ensures PostPrefix <= u && |u| == |PostPrefix| + |sc| + 1 && u[|u| - 1] == '/'
  {
    PostPrefix + sc + "/"
  }

  /** The href filter of the hashtag page. */
  predicate Kept(href: Option<string>)
  {
    href.Some? && href.value != "" && Contains(href.value, Marker) &&
    !Contains(href.value, "liked_by") && !Contains(href.value, "comments")
  }

  /** Within the prefix, a "/" is followed by "p" only at index 25. */
  lemma PrefixSlashes()
    ensures forall k :: 0 <= k < 25 ==> PostPrefix[k] != '/' || PostPrefix[k + 1] != 'p'
  {
    var k := 25;
    while k > 0
      invariant 0 <= k <= 25
      invariant forall j :: k <= j < 25 ==> PostPrefix[j] != '/' || PostPrefix[j + 1] != 'p'
    {
      k := k - 1;
    }
  }

  /** The first "/p/" of a string starting with the prefix is the one that ends it. */
  lemma PrefixMarker(u: string)
    requires PostPrefix <= u
    ensures IndexOf(u, Marker, 0) == Some(25)
  {
    PrefixSlashes();
    assert forall k :: 0 <= k < 28 ==> u[k] == PostPrefix[k];
    assert u[25..28] == Marker;
    assert Marker[0] == '/' && Marker[1] == 'p';
    forall j | 0 <= j < 25
      ensures !OccursAt(u, Marker, j)
    {
      OccursAtChars(u, Marker, j);
    }
    IndexOfFirst(u, Marker, 25);
  }

  /** A string whose only "/" is its last character holds no "/p/". */
  lemma NoMarker(t: string)
    requires forall i :: 0 <= i < |t| - 1 ==> t[i] != '/'
    ensures !Contains(t, Marker)
  {
    assert Marker[0] == '/' && Marker[2] == '/';
    forall j: int | 0 <= j
      ensures !OccursAt(t, Marker, j)
    {
      OccursAtChars(t, Marker, j);
    }
  }

  /** Canonical URLs give back their shortcode. */
  lemma {:induction false} RoundTrip(sc: string)
    requires '/' !in sc
    ensures Normalise(BaseUrl(sc)) == sc
  {
    var u := BaseUrl(sc);
    assert u[0..4] == "http";
    IndexOfFirst(u, "http", 0);
    PrefixMarker(u);
    var rest := sc + "/";
    assert u[28..] == rest;
    SplitFirst(u, Marker, 25);
    NoMarker(rest);
    assert Split(u, Marker) == [u[..25], rest];
    assert rest[|sc|..|sc| + 1] == "/";
    IndexOfFirst(rest, "/", |sc|) by {
      forall j | 0 <= j < |sc|
        ensures !OccursAt(rest, "/", j)
      {
        OccursAtChars(rest, "/", j);
        assert rest[j] == sc[j];
      }
    }
    assert rest[..|sc|] == sc;
  }

  /** A string without "/" is its own shortcode, whether or not it contains "http". */
  lemma SlashFreeFixed(sc: string)
    requires '/' !in sc
    ensures ShortcodeOf(sc) == sc && Normalise(sc) == sc
  {
    NoMarker(sc);
    ContainsChar(sc, '/');
    assert Split(sc, Marker) == [sc];
    assert Split(sc, "/") == [sc];
  }

  /** Normalising a canonical URL and rebuilding it is the identity. */
  lemma BaseUrlStable(sc: string)
    requires '/' !in sc
    ensures BaseUrl(Normalise(BaseUrl(sc))) == BaseUrl(sc)
  {
    RoundTrip(sc);
  }

  /** A canonical post URL: rebuilding it from its own shortcode changes nothing. */
  predicate Canonical(u: string)
  {
    PostPrefix <= u && BaseUrl(Normalise(u)) == u
  }

  /** The URL the filter makes of one link, if it keeps the link. */
  function PostUrlOf(href: Option<string>): (r: Option<string>)
    ensures r.Some? <==> Kept(href)
  {
    if Kept(href) then Some(BaseUrl(ShortcodeOf(href.value))) else None
  }

  /** Every URL the filter makes is canonical and names the link's shortcode. */
  lemma PostUrlCanonical(href: Option<string>)
    requires Kept(href)
    ensures Canonical(PostUrlOf(href).value)
    ensures Normalise(PostUrlOf(href).value) == ShortcodeOf(href.value)
  {
    RoundTrip(ShortcodeOf(href.value));
  }

  /** The URLs present among the first `n` results of the filter. */
  function Collected(made: seq<Option<string>>, n: nat): set<string>
    requires n <= |made|
  {
    if n == 0 then {}
    else if made[n - 1].Some? then Collected(made, n - 1) + {made[n - 1].value}
    else Collected(made, n - 1)
  }

  /** A URL is collected exactly when one of the results is that URL. */
  lemma {:induction false} CollectedMembers(made: seq<Option<string>>, n: nat, u: string)
    requires n <= |made|
    ensures u in Collected(made, n) <==> exists i :: 0 <= i < n && made[i] == Some(u)
  {
    if n > 0 {
      CollectedMembers(made, n - 1, u);
      if exists i :: 0 <= i < n && made[i] == Some(u) {
        var i :| 0 <= i < n && made[i] == Some(u);
        if i < n - 1 {
          assert u in Collected(made, n - 1);
        }
      }
    }
  }

  /**
   * Collecting what the filter makes of each link gives the URLs of the kept
   * links, each of them canonical.
   */
  lemma CollectedUrls(hrefs: seq<Option<string>>, made: seq<Option<string>>)
    requires |made| == |hrefs| && forall i :: 0 <= i < |hrefs| ==> made[i] == PostUrlOf(hrefs[i])
    ensures forall u :: u in Collected(made, |made|) <==> exists i :: 0 <= i < |hrefs| && PostUrlOf(hrefs[i]) == Some(u)
    ensures forall u :: u in Collected(made, |made|) ==> Canonical(u)
  {
    forall u
      ensures u in Collected(made, |made|) <==> exists i :: 0 <= i < |hrefs| && PostUrlOf(hrefs[i]) == Some(u)
      ensures u in Collected(made, |made|) ==> Canonical(u)
    {
      CollectedMembers(made, |made|, u);
      if u in Collected(made, |made|) {
        var i :| 0 <= i < |hrefs| && PostUrlOf(hrefs[i]) == Some(u);
        PostUrlCanonical(hrefs[i]);
      }
    }
  }

  /**
   * The loop over the links of a hashtag page: every kept href is turned into
   * the canonical URL of its shortcode and added to a set.
   */
  method CollectPostUrls(hrefs: seq<Option<string>>) returns (urls: set<string>)
    ensures forall u :: u in urls <==> exists i :: 0 <= i < |hrefs| && PostUrlOf(hrefs[i]) == Some(u)
    ensures forall u :: u in urls ==> Canonical(u)
  {
    ghost var made := seq(|hrefs|, i requires 0 <= i < |hrefs| => PostUrlOf(hrefs[i]));
    urls := {};
    for n := 0 to |hrefs|
      invariant urls == Collected(made, n)
    {
      var url := PostUrlOf(hrefs[n]);
      assert url == made[n];
      if url.Some? {
        urls := urls + {url.value};
      }
    }
    CollectedUrls(hrefs, made);
  }
}
