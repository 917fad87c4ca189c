/**
 * main.py: the posts found for a hashtag are cut to `max_posts`; the
 * commenters of every post that returned data are collected into a dict
 * keyed by post URL; then every commenter's profile is fetched, a CSV row
 * is written and flushed for each non-empty profile, and a 30 to 60 s pause
 * follows every commenter.
 */
module MainFlow {
  import opened Wrappers
  import opened Text
  import opened Trace
  import opened Seqs
  import opened Shortcode
  import opened Comments
  import opened Scrape
  import opened Profile
  import opened Bio
  import opened PostLoop

  // --- the dict `post_to_usernames` ----------------------------------------

  /** A Python dict from post URL to commenters: its keys in insertion order, and its entries. */
  datatype Dict = Dict(order: seq<string>, entries: map<string, seq<string>>)

  /** Every key is listed once, and the listed keys are exactly the entries' keys. */
  ghost predicate Valid(d: Dict)
  {
    Distinct(d.order) && forall k :: k in d.entries <==> k in d.order
  }

  /** `d[key] = value` */
  function Put(d: Dict, key: string, value: seq<string>): Dict
  {
    if key in d.entries then Dict(d.order, d.entries[key := value])
    else Dict(d.order + [key], d.entries[key := value])
  }

  /** Assignment keeps a dict well formed. */
  lemma PutValid(d: Dict, key: string, value: seq<string>)
    requires Valid(d)
    ensures Valid(Put(d, key, value))
  {
    var r := Put(d, key, value);
    if key !in d.entries {
      assert forall i :: 0 <= i < |d.order| ==> r.order[i] == d.order[i];
    }
  }

  /**
   * Assignment to a dict: the key maps to the new value and no other entry
   * changes; a key already present keeps its place, a new one goes last.
   */
  lemma PutEntries(d: Dict, key: string, value: seq<string>)
    requires Valid(d)
    ensures var r := Put(d, key, value);
      r.entries[key] == value &&
      (forall k :: k != key ==> (k in r.entries <==> k in d.entries)) &&
      (forall k :: k != key && k in d.entries ==> r.entries[k] == d.entries[k]) &&
      d.order <= r.order &&
      |r.order| == if key in d.entries then |d.order| else |d.order| + 1
  {
  }

  // --- phase 1: the commenters of each post ------------------------------

  /** The dict after the first `n` posts, given what each post's scrape gave. */
  function Gathered(urls: seq<string>, outcomes: seq<Option<seq<string>>>, n: nat): Dict
    requires |outcomes| == |urls| && n <= |urls|
  {
    if n == 0 then Dict([], map[])
    else
      var d := Gathered(urls, outcomes, n - 1);
      match outcomes[n - 1]
      case None => d
      case Some(names) => Put(d, urls[n - 1], names)
  }

  /** The dict is well formed after every post. */
  lemma {:induction false} GatheredValid(urls: seq<string>, outcomes: seq<Option<seq<string>>>, n: nat)
    requires |outcomes| == |urls| && n <= |urls|
    ensures Valid(Gathered(urls, outcomes, n))
  {
    if n > 0 {
      GatheredValid(urls, outcomes, n - 1);
      match outcomes[n - 1]
      case None =>
      case Some(names) => PutValid(Gathered(urls, outcomes, n - 1), urls[n - 1], names);
    }
  }

  // --- phase 2: one profile per commenter ----------------------------------

  /** The state of phase 2: the profile requests made so far, and what happened. */
  datatype Progress = Progress(requests: nat, trace: seq<Event>)

  const Header: seq<string> := ["post_url", "username", "biography", "phone_number", "email", "link"]

  /** The row of a commenter whose profile came back, in the header's column order. */
  function Row(cc: CharClasses, url: string, username: string, profile: Profile): (row: seq<string>)
    ensures |row| == |Header|
  {
    var bio := Biography(profile);
    [url, username, bio, ExtractPhone(cc, bio), ExtractEmail(cc, bio), ExtractLink(cc, bio)]
  }

  /** What follows a profile fetch: a row and a flush if the profile is non-empty, then the pause. */
  function AfterFetch(cc: CharClasses, url: string, username: string, profile: Profile): seq<Event>
  {
    (if profile != map[] then [RowWritten(Row(cc, url, username, profile)), Flushed] else []) +
    [Sleep(ProfilePause)]
  }

  /** One commenter: fetch the profile, write and flush a row if it is non-empty, then pause. */
  function Visit(p: Progress, cc: CharClasses, net: nat -> Response, url: string, username: string): Progress
  {
    var f := FetchProfile(username, net, p.requests);
    Progress(p.requests + f.requests, p.trace + f.trace + AfterFetch(cc, url, username, f.profile))
  }

  /** The first `j` commenters of one post, from `p`. */
  function VisitUsers(p: Progress, cc: CharClasses, net: nat -> Response, url: string, names: seq<string>, j: nat): Progress
    requires j <= |names|
  {
    if j == 0 then p else Visit(VisitUsers(p, cc, net, url, names, j - 1), cc, net, url, names[j - 1])
  }

  /** Phase 2 over the first `k` posts of the dict. */
  function VisitPosts(d: Dict, cc: CharClasses, net: nat -> Response, k: nat): Progress
    requires Valid(d) && k <= |d.order|
  {
    if k == 0 then Progress(0, [])
    else
      var url := d.order[k - 1];
      var names := d.entries[url];
      VisitUsers(VisitPosts(d, cc, net, k - 1), cc, net, url, names, |names|)
  }

  /** How many commenters the first `k` posts of the dict hold. */
  function PairTotal(d: Dict, k: nat): nat
    requires Valid(d) && k <= |d.order|
  {
    if k == 0 then 0 else PairTotal(d, k - 1) + |d.entries[d.order[k - 1]]|
  }

  // --- the script ----------------------------------------------------------

  /**
   * `main()`, with the hashtag search, the browser session and the CSV file
   * replaced by their observable effects: an empty search ends the run at
   * once; otherwise the trace is the cookie fetch, phase 1, the header row,
   * and phase 2.
   */
  method ScrapeHashtag(allPosts: seq<string>, maxPosts: int, postNet: PostNet, net: nat -> Response, cc: CharClasses)
    returns (trace: seq<Event>)
    ensures allPosts == [] ==> trace == []
    ensures allPosts != [] ==>
      var urls := SlicePrefix(allPosts, maxPosts);
      var outcomes := Outcomes(urls, postNet);
      var d := Gathered(urls, outcomes, |urls|);
      Valid(d) &&
      trace == [CookiesFetched] + PostEvents(Shortcodes(urls), outcomes, |urls|) + [RowWritten(Header)] +
        VisitPosts(d, cc, net, |d.order|).trace
  {
    if allPosts == [] {
      return [];
    }
    var postUrls := SlicePrefix(allPosts, maxPosts);
    trace := [CookiesFetched];
    var postToUsernames, events := CollectCommenters(postUrls, postNet);
    GatheredValid(postUrls, Outcomes(postUrls, postNet), |postUrls|);
    trace := trace + events + [RowWritten(Header)];
    var written := WriteProfiles(postToUsernames, cc, net);
    trace := trace + written;
  }

  /** Phase 1: `post_to_usernames[post_url] = commenters` for every post that returned data. */
  method CollectCommenters(postUrls: seq<string>, net: PostNet) returns (d: Dict, trace: seq<Event>)
    ensures d == Gathered(postUrls, Outcomes(postUrls, net), |postUrls|)
    ensures trace == PostEvents(Shortcodes(postUrls), Outcomes(postUrls, net), |postUrls|)
  {
    d := Dict([], map[]);
    trace := [];
    for i := 0 to |postUrls|
      invariant d == Gathered(postUrls, Outcomes(postUrls, net), i)
      invariant trace == PostEvents(Shortcodes(postUrls), Outcomes(postUrls, net), i)
    {
      d, trace := GatherPost(postUrls, net, i, d, trace);
    }
  }

  /** One iteration of phase 1: scrape the `i`-th post and record its commenters if it returned data. */
  method GatherPost(postUrls: seq<string>, net: PostNet, i: nat, d: Dict, trace: seq<Event>)
    returns (d': Dict, trace': seq<Event>)
    requires i < |postUrls|
    requires d == Gathered(postUrls, Outcomes(postUrls, net), i)
    requires trace == PostEvents(Shortcodes(postUrls), Outcomes(postUrls, net), i)
    ensures d' == Gathered(postUrls, Outcomes(postUrls, net), i + 1)
    ensures trace' == PostEvents(Shortcodes(postUrls), Outcomes(postUrls, net), i + 1)
  {
    var postUrl := postUrls[i];
    var commenters := ScrapeCommenters(net(i));
    assert commenters == Outcomes(postUrls, net)[i] && Normalise(postUrl) == Shortcodes(postUrls)[i];
    if commenters.None? {
      return d, trace + [PostRequest(Normalise(postUrl))];
    }
    d' := Put(d, postUrl, commenters.value);
    trace' := trace + [PostRequest(Normalise(postUrl)), Sleep(PostPause)];
  }

  /** `scrape_post`, then `extract_comment_usernames` on the data it returned. */
  method ScrapeCommenters(r: PostResponse) returns (commenters: Option<seq<string>>)
    ensures commenters == Commenters(r)
  {
    var postJson := ScrapePost(r);
    if postJson.None? {
      return None;
    }
    var usernames := ExtractCommentUsernames(postJson.value);
    commenters := Some(usernames);
  }

  /** Phase 2: every commenter of every post, in the dict's order. */
  method WriteProfiles(d: Dict, cc: CharClasses, net: nat -> Response) returns (trace: seq<Event>)
    requires Valid(d)
    ensures trace == VisitPosts(d, cc, net, |d.order|).trace
  {
    var p := Progress(0, []);
    for k := 0 to |d.order|
      invariant p == VisitPosts(d, cc, net, k)
    {
      var postUrl := d.order[k];
      var usernames := d.entries[postUrl];
      for j := 0 to |usernames|
        invariant p == VisitUsers(VisitPosts(d, cc, net, k), cc, net, postUrl, usernames, j)
      {
        p := VisitUser(p, cc, net, postUrl, usernames[j]);
      }
    }
    trace := p.trace;
  }

  /** The body of the inner loop. */
  method VisitUser(p: Progress, cc: CharClasses, net: nat -> Response, postUrl: string, username: string)
    returns (p': Progress)
    ensures p' == Visit(p, cc, net, postUrl, username)
  {
    var profileData, requests, events := GetUserProfile(username, net, p.requests);
    var trace := p.trace + events;
    if profileData != map[] {
      trace := trace + [RowWritten(Row(cc, postUrl, username, profileData)), Flushed];
    }
    p' := Progress(p.requests + requests, trace + [Sleep(ProfilePause)]);
  }

  // --- properties ----------------------------------------------------------

  /** One more post adds its URL as a key when it returned data, and no other key. */
  lemma GatheredStepKeys(urls: seq<string>, outcomes: seq<Option<seq<string>>>, n: nat, url: string)
    requires |outcomes| == |urls| && 0 < n <= |urls|
    ensures url in Gathered(urls, outcomes, n).entries <==>
      url in Gathered(urls, outcomes, n - 1).entries || (urls[n - 1] == url && outcomes[n - 1].Some?)
  {
  }

  /** A post URL is a key of the dict exactly when one of its requests returned data. */
  lemma {:induction false} GatheredKeys(urls: seq<string>, outcomes: seq<Option<seq<string>>>, n: nat, url: string)
    requires |outcomes| == |urls| && n <= |urls|
    ensures url in Gathered(urls, outcomes, n).entries <==>
      exists i :: 0 <= i < n && urls[i] == url && outcomes[i].Some?
  {
    if n > 0 {
      GatheredKeys(urls, outcomes, n - 1, url);
      GatheredStepKeys(urls, outcomes, n, url);
      if url in Gathered(urls, outcomes, n - 1).entries {
        var i :| 0 <= i < n - 1 && urls[i] == url && outcomes[i].Some?;
        assert 0 <= i < n;
      } else if urls[n - 1] == url && outcomes[n - 1].Some? {
        assert 0 <= n - 1 < n;
      }
      if exists i :: 0 <= i < n && urls[i] == url && outcomes[i].Some? {
        var i :| 0 <= i < n && urls[i] == url && outcomes[i].Some?;
        if i < n - 1 {
          assert url in Gathered(urls, outcomes, n - 1).entries;
        }
      }
    }
  }

  /**
   * One more post that returned data sets its URL's entry; one that did not
   * leaves the dict as it was, and other URLs keep their entries either way.
   */
  lemma GatheredStepEntries(urls: seq<string>, outcomes: seq<Option<seq<string>>>, n: nat, url: string)
    requires |outcomes| == |urls| && 0 < n <= |urls|
    ensures var d, d' := Gathered(urls, outcomes, n - 1), Gathered(urls, outcomes, n);
      (urls[n - 1] == url && outcomes[n - 1].Some? ==>
        url in d'.entries && d'.entries[url] == outcomes[n - 1].value) &&
      (url in d.entries && !(urls[n - 1] == url && outcomes[n - 1].Some?) ==>
        url in d'.entries && d'.entries[url] == d.entries[url])
  {
  }

  /** A post URL seen more than once keeps the commenters of its last request that returned data. */
  lemma {:induction false} GatheredLastWins(urls: seq<string>, outcomes: seq<Option<seq<string>>>, n: nat, i: nat)
    requires |outcomes| == |urls| && i < n <= |urls| && outcomes[i].Some?
    requires forall m :: i < m < n && urls[m] == urls[i] ==> outcomes[m].None?
    ensures var d := Gathered(urls, outcomes, n);
      urls[i] in d.entries && d.entries[urls[i]] == outcomes[i].value
  {
    GatheredStepEntries(urls, outcomes, n, urls[i]);
    if i < n - 1 {
      GatheredLastWins(urls, outcomes, n - 1, i);
    }
  }

  /** What follows a fetch holds exactly one 30 to 60 s pause. */
  lemma AfterFetchPause(cc: CharClasses, url: string, username: string, profile: Profile)
    ensures Count(AfterFetch(cc, url, username, profile), Sleep(ProfilePause)) == 1
  {
    var written: seq<Event> := if profile != map[] then [RowWritten(Row(cc, url, username, profile)), Flushed] else [];
    CountZero(written, Sleep(ProfilePause));
    CountAppend(written, [Sleep(ProfilePause)], Sleep(ProfilePause));
  }

  /** Each commenter costs one to three profile requests. */
  lemma VisitRequests(p: Progress, cc: CharClasses, net: nat -> Response, url: string, username: string)
    ensures var q := Visit(p, cc, net, url, username);
      p.requests + 1 <= q.requests <= p.requests + Retries
  {
    FetchBounds(username, net, p.requests);
  }

  /** Each commenter is followed by exactly one 30 to 60 s pause. */
  lemma VisitPauses(p: Progress, cc: CharClasses, net: nat -> Response, url: string, username: string)
    ensures Count(Visit(p, cc, net, url, username).trace, Sleep(ProfilePause)) == Count(p.trace, Sleep(ProfilePause)) + 1
  {
    var f := FetchProfile(username, net, p.requests);
    var after := AfterFetch(cc, url, username, f.profile);
    FetchNoPause(username, net, p.requests);
    AfterFetchPause(cc, url, username, f.profile);
    CountAppend(p.trace, f.trace, Sleep(ProfilePause));
    CountAppend(p.trace + f.trace, after, Sleep(ProfilePause));
  }

  /** Over one post's commenters: one to three requests each. */
  lemma {:induction false} VisitUsersRequests(p: Progress, cc: CharClasses, net: nat -> Response, url: string, names: seq<string>, j: nat)
    requires j <= |names|
    ensures var q := VisitUsers(p, cc, net, url, names, j);
      p.requests + j <= q.requests <= p.requests + 3 * j
  {
    if j > 0 {
      VisitUsersRequests(p, cc, net, url, names, j - 1);
      VisitRequests(VisitUsers(p, cc, net, url, names, j - 1), cc, net, url, names[j - 1]);
    }
  }

  /** Over one post's commenters: one pause each. */
  lemma {:induction false} VisitUsersPauses(p: Progress, cc: CharClasses, net: nat -> Response, url: string, names: seq<string>, j: nat)
    requires j <= |names|
    ensures Count(VisitUsers(p, cc, net, url, names, j).trace, Sleep(ProfilePause)) == Count(p.trace, Sleep(ProfilePause)) + j
  {
    if j > 0 {
      VisitUsersPauses(p, cc, net, url, names, j - 1);
      VisitPauses(VisitUsers(p, cc, net, url, names, j - 1), cc, net, url, names[j - 1]);
    }
  }

  /** Phase 2 makes one to three requests per commenter. */
  lemma {:induction false} VisitPostsRequests(d: Dict, cc: CharClasses, net: nat -> Response, k: nat)
    requires Valid(d) && k <= |d.order|
    ensures var q := VisitPosts(d, cc, net, k);
      PairTotal(d, k) <= q.requests <= 3 * PairTotal(d, k)
  {
    if k > 0 {
      VisitPostsRequests(d, cc, net, k - 1);
      var url := d.order[k - 1];
      VisitUsersRequests(VisitPosts(d, cc, net, k - 1), cc, net, url, d.entries[url], |d.entries[url]|);
    }
  }

  /** Phase 2 pauses once per commenter. */
  lemma {:induction false} VisitPostsPauses(d: Dict, cc: CharClasses, net: nat -> Response, k: nat)
    requires Valid(d) && k <= |d.order|
    ensures Count(VisitPosts(d, cc, net, k).trace, Sleep(ProfilePause)) == PairTotal(d, k)
  {
    if k > 0 {
      VisitPostsPauses(d, cc, net, k - 1);
      var url := d.order[k - 1];
      VisitUsersPauses(VisitPosts(d, cc, net, k - 1), cc, net, url, d.entries[url], |d.entries[url]|);
    }
  }

  /** How many rows `t` writes. */
  function RowCount(t: seq<Event>): nat
  {
    if t == [] then 0 else RowCount(t[..|t| - 1]) + (if t[|t| - 1].RowWritten? then 1 else 0)
  }

  lemma {:induction false} RowCountAppend(a: seq<Event>, b: seq<Event>)
    ensures RowCount(a + b) == RowCount(a) + RowCount(b)
    decreases |b|
  {
    if b == [] {
      assert a + b == a;
    } else {
      var b' := b[..|b| - 1];
      assert (a + b)[..|a + b| - 1] == a + b';
      RowCountAppend(a, b');
    }
  }

  /** A trace without written rows counts none. */
  lemma {:induction false} RowCountNone(t: seq<Event>)
    requires forall e :: e in t ==> !e.RowWritten?
    ensures RowCount(t) == 0
    decreases |t|
  {
    if t != [] {
      assert t[|t| - 1] in t;
      assert forall e :: e in t[..|t| - 1] ==> e in t;
      RowCountNone(t[..|t| - 1]);
    }
  }

  /** What follows a fetch writes one row when the profile is non-empty, and none otherwise. */
  lemma AfterFetchRows(cc: CharClasses, url: string, username: string, profile: Profile)
    ensures RowCount(AfterFetch(cc, url, username, profile)) == if profile != map[] then 1 else 0
  {
    var written: seq<Event> := if profile != map[] then [RowWritten(Row(cc, url, username, profile)), Flushed] else [];
    RowCountAppend(written, [Sleep(ProfilePause)]);
    RowCountNone([Sleep(ProfilePause)]);
    if profile != map[] {
      RowCountAppend([RowWritten(Row(cc, url, username, profile))], [Flushed]);
      RowCountNone([Flushed]);
    }
  }

  /** A fetch writes no row. */
  lemma FetchRows(username: string, net: nat -> Response, start: nat)
    ensures RowCount(FetchProfile(username, net, start).trace) == 0
  {
    FetchEvents(username, net, start);
    RowCountNone(FetchProfile(username, net, start).trace);
  }

  /** A commenter gets one row when the profile fetched is non-empty, and none when the fetch failed. */
  lemma VisitRowCount(p: Progress, cc: CharClasses, net: nat -> Response, url: string, username: string)
    ensures RowCount(Visit(p, cc, net, url, username).trace) ==
      RowCount(p.trace) + if FetchProfile(username, net, p.requests).profile != map[] then 1 else 0
  {
    var f := FetchProfile(username, net, p.requests);
    FetchRows(username, net, p.requests);
    AfterFetchRows(cc, url, username, f.profile);
    RowCountAppend(p.trace, f.trace);
    RowCountAppend(p.trace + f.trace, AfterFetch(cc, url, username, f.profile));
  }

  /** How many of the first `j` commenters' profile fetches came back non-empty. */
  function NonEmptyUserFetches(p: Progress, cc: CharClasses, net: nat -> Response, url: string, names: seq<string>, j: nat): nat
    requires j <= |names|
  {
    if j == 0 then 0
    else
      var before := VisitUsers(p, cc, net, url, names, j - 1);
      NonEmptyUserFetches(p, cc, net, url, names, j - 1) +
      (if FetchProfile(names[j - 1], net, before.requests).profile != map[] then 1 else 0)
  }

  /** How many profile fetches of phase 2, over the first `k` posts, came back non-empty. */
  function NonEmptyFetches(d: Dict, cc: CharClasses, net: nat -> Response, k: nat): nat
    requires Valid(d) && k <= |d.order|
  {
    if k == 0 then 0
    else
      var url := d.order[k - 1];
      var names := d.entries[url];
      NonEmptyFetches(d, cc, net, k - 1) + NonEmptyUserFetches(VisitPosts(d, cc, net, k - 1), cc, net, url, names, |names|)
  }

  /** The commenters of one post add one row per non-empty profile, at most one per commenter. */
  lemma {:induction false} VisitUsersRowCount(p: Progress, cc: CharClasses, net: nat -> Response, url: string, names: seq<string>, j: nat)
    requires j <= |names|
    ensures RowCount(VisitUsers(p, cc, net, url, names, j).trace) ==
      RowCount(p.trace) + NonEmptyUserFetches(p, cc, net, url, names, j)
    ensures NonEmptyUserFetches(p, cc, net, url, names, j) <= j
  {
    if j > 0 {
      VisitUsersRowCount(p, cc, net, url, names, j - 1);
      VisitRowCount(VisitUsers(p, cc, net, url, names, j - 1), cc, net, url, names[j - 1]);
    }
  }

  /**
   * Phase 2 writes exactly one row per (post, commenter) pair whose profile
   * came back non-empty, so never more rows than the dict holds pairs.
   */
  lemma {:induction false} VisitPostsRowCount(d: Dict, cc: CharClasses, net: nat -> Response, k: nat)
    requires Valid(d) && k <= |d.order|
    ensures RowCount(VisitPosts(d, cc, net, k).trace) == NonEmptyFetches(d, cc, net, k)
    ensures NonEmptyFetches(d, cc, net, k) <= PairTotal(d, k)
  {
    if k > 0 {
      VisitPostsRowCount(d, cc, net, k - 1);
      var url := d.order[k - 1];
      VisitUsersRowCount(VisitPosts(d, cc, net, k - 1), cc, net, url, d.entries[url], |d.entries[url]|);
    }
  }

  /** Every row written is flushed at once. */
  predicate RowsFlushed(t: seq<Event>)
  {
    forall i :: 0 <= i < |t| && t[i].RowWritten? ==> i + 1 < |t| && t[i + 1] == Flushed
  }

  lemma RowsFlushedAppend(a: seq<Event>, b: seq<Event>)
    requires RowsFlushed(a) && RowsFlushed(b)
    ensures RowsFlushed(a + b)
  {
    forall i | 0 <= i < |a + b| && (a + b)[i].RowWritten?
      ensures i + 1 < |a + b| && (a + b)[i + 1] == Flushed
    {
      if i < |a| {
        assert a[i].RowWritten?;
      } else {
        assert b[i - |a|].RowWritten?;
      }
    }
  }

  /** Visiting a commenter keeps every written row followed by a flush. */
  lemma VisitFlushes(p: Progress, cc: CharClasses, net: nat -> Response, url: string, username: string)
    requires RowsFlushed(p.trace)
    ensures RowsFlushed(Visit(p, cc, net, url, username).trace)
  {
    var f := FetchProfile(username, net, p.requests);
    FetchEvents(username, net, p.requests);
    assert RowsFlushed(f.trace) by {
      forall i | 0 <= i < |f.trace|
        ensures !f.trace[i].RowWritten?
      {
        assert f.trace[i] in f.trace;
      }
    }
    var tail := AfterFetch(cc, url, username, f.profile);
    assert RowsFlushed(tail);
    RowsFlushedAppend(p.trace, f.trace);
    RowsFlushedAppend(p.trace + f.trace, tail);
  }

  lemma {:induction false} VisitUsersFlush(p: Progress, cc: CharClasses, net: nat -> Response, url: string, names: seq<string>, j: nat)
    requires j <= |names| && RowsFlushed(p.trace)
    ensures RowsFlushed(VisitUsers(p, cc, net, url, names, j).trace)
  {
    if j > 0 {
      VisitUsersFlush(p, cc, net, url, names, j - 1);
      VisitFlushes(VisitUsers(p, cc, net, url, names, j - 1), cc, net, url, names[j - 1]);
    }
  }

  /** In phase 2 every row is flushed as soon as it is written. */
  lemma {:induction false} VisitPostsFlush(d: Dict, cc: CharClasses, net: nat -> Response, k: nat)
    requires Valid(d) && k <= |d.order|
    ensures RowsFlushed(VisitPosts(d, cc, net, k).trace)
  {
    if k > 0 {
      VisitPostsFlush(d, cc, net, k - 1);
      var url := d.order[k - 1];
      VisitUsersFlush(VisitPosts(d, cc, net, k - 1), cc, net, url, d.entries[url], |d.entries[url]|);
    }
  }

  /**
   * A row of phase 2: six fields, a post URL of the dict and one of its
   * commenters, a biography, and the three fields extracted from it.
   */
  ghost predicate RowOf(d: Dict, cc: CharClasses, fields: seq<string>)
  {
    |fields| == |Header| &&
    fields[0] in d.entries && fields[1] in d.entries[fields[0]] &&
    fields[3] == ExtractPhone(cc, fields[2]) &&
    fields[4] == ExtractEmail(cc, fields[2]) &&
    fields[5] == ExtractLink(cc, fields[2])
  }

  ghost predicate RowsOf(d: Dict, cc: CharClasses, t: seq<Event>)
  {
    forall e :: e in t && e.RowWritten? ==> RowOf(d, cc, e.fields)
  }

  /** Visiting a commenter of a collected post writes at most its own row. */
  lemma VisitRows(d: Dict, p: Progress, cc: CharClasses, net: nat -> Response, url: string, username: string)
    requires url in d.entries && username in d.entries[url] && RowsOf(d, cc, p.trace)
    ensures RowsOf(d, cc, Visit(p, cc, net, url, username).trace)
  {
    var f := FetchProfile(username, net, p.requests);
    FetchEvents(username, net, p.requests);
    var after := AfterFetch(cc, url, username, f.profile);
    if f.profile != map[] {
      assert RowOf(d, cc, Row(cc, url, username, f.profile));
    }
    assert RowsOf(d, cc, after);
  }

  lemma {:induction false} VisitUsersRows(d: Dict, p: Progress, cc: CharClasses, net: nat -> Response, url: string, j: nat)
    requires url in d.entries && j <= |d.entries[url]| && RowsOf(d, cc, p.trace)
    ensures RowsOf(d, cc, VisitUsers(p, cc, net, url, d.entries[url], j).trace)
  {
    if j > 0 {
      var names := d.entries[url];
      var q := VisitUsers(p, cc, net, url, names, j - 1);
      VisitUsersRows(d, p, cc, net, url, j - 1);
      VisitRows(d, q, cc, net, url, names[j - 1]);
      assert VisitUsers(p, cc, net, url, names, j) == Visit(q, cc, net, url, names[j - 1]);
    }
  }

  /** Every row phase 2 writes belongs to a commenter of a collected post and carries its extracted fields. */
  lemma {:induction false} VisitPostsRows(d: Dict, cc: CharClasses, net: nat -> Response, k: nat)
    requires Valid(d) && k <= |d.order|
    ensures RowsOf(d, cc, VisitPosts(d, cc, net, k).trace)
  {
    if k > 0 {
      VisitPostsRows(d, cc, net, k - 1);
      VisitUsersRows(d, VisitPosts(d, cc, net, k - 1), cc, net, d.order[k - 1], |d.entries[d.order[k - 1]]|);
    }
  }
}
