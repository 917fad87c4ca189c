/**
 * The `main` loop of comment.py and comment_eng.py: every post URL is
 * scraped, the commenters of each post that returned data are collected as
 * (post URL, username) pairs, and the pairs are written to a CSV file after
 * the loop. A network exception escapes `scrape_post` and ends the run
 * before anything is written.
 */
module Harvest {
  import opened Wrappers
  import opened Trace
  import opened Shortcode
  import opened Comments
  import opened Scrape
  import opened PostLoop

  const CsvHeader: seq<string> := ["post_url", "comment_username"]

  /** The second field of every pair, in order. */
  function Usernames(pairs: seq<(string, string)>): seq<string>
  {
    seq(|pairs|, j requires 0 <= j < |pairs| => pairs[j].1)
  }

  /**
   * The pairs one post contributes to `results`: every pair carries the
   * post's URL, and their usernames read back the commenters in order.
   */
  function PostPairs(url: string, commenters: Option<seq<string>>): (pairs: seq<(string, string)>)
    ensures commenters.None? ==> pairs == []
    ensures forall pr :: pr in pairs ==> pr.0 == url
    ensures commenters.Some? ==> Usernames(pairs) == commenters.value
  {
    match commenters
    case None => []
    case Some(names) => seq(|names|, j requires 0 <= j < |names| => (url, names[j]))
  }

  /** The request for the `i`-th post raises. */
  predicate RaisesAt(net: PostNet, i: nat)
  {
    net(i).Raised?
  }

  /** `results` after the first `n` posts, given what each post's scrape gave. */
  function ResultsUpTo(urls: seq<string>, outcomes: seq<Option<seq<string>>>, n: nat): seq<(string, string)>
    requires |outcomes| == |urls| && n <= |urls|
  {
    if n == 0 then [] else ResultsUpTo(urls, outcomes, n - 1) + PostPairs(urls[n - 1], outcomes[n - 1])
  }

  /** Reading the data rows of the CSV file back as pairs. */
  function ReadBack(rows: seq<seq<string>>): seq<(string, string)>
    requires forall row :: row in rows ==> |row| == 2
  {
    seq(|rows|, j requires 0 <= j < |rows| => (rows[j][0], rows[j][1]))
  }

  /**
   * The CSV file: the header, then one two-field row per pair; reading the
   * rows after the header back gives the pairs again, in order.
   */
  function CsvRows(results: seq<(string, string)>): (rows: seq<seq<string>>)
    ensures |rows| == |results| + 1 && rows[0] == CsvHeader
    ensures forall row :: row in rows ==> |row| == 2
    ensures ReadBack(rows[1..]) == results
  {
    [CsvHeader] + seq(|results|, j requires 0 <= j < |results| => [results[j].0, results[j].1])
  }

  /**
   * The loop over the post URLs, then the CSV write. Without a network
   * exception the file holds the pairs of every post that returned data, in
   * order; with one, the run stops at the first post whose request raised,
   * right after that request, and nothing is written.
   */
  method CommentMain(postUrls: seq<string>, net: PostNet)
    returns (trace: seq<Event>, csv: Result<seq<seq<string>>, NetworkError>)
    ensures csv.Ok? <==> forall i :: 0 <= i < |postUrls| ==> !RaisesAt(net, i)
    ensures csv.Ok? ==> csv.value == CsvRows(ResultsUpTo(postUrls, Outcomes(postUrls, net), |postUrls|))
    ensures csv.Ok? ==> trace == [CookiesFetched] + PostEvents(Shortcodes(postUrls), Outcomes(postUrls, net), |postUrls|)
    ensures csv.Err? ==>
      exists k :: 0 <= k < |postUrls| && StoppedAt(Shortcodes(postUrls), Outcomes(postUrls, net), net, k, trace) &&
        csv.error == NetworkError(Normalise(postUrls[k]))
  {
    ghost var scs, outcomes := Shortcodes(postUrls), Outcomes(postUrls, net);
    assert Answers(postUrls, net, scs, outcomes);
    var stop, results;
    stop, trace, results := ScrapeAll(postUrls, net, scs, outcomes);
    if stop < |postUrls| {
      csv := Err(NetworkError(Normalise(postUrls[stop])));
    } else {
      csv := Ok(CsvRows(results));
    }
  }

  /**
   * `scs` and `outcomes` are the shortcodes the run's requests ask for and
   * what each request gave.
   */
  ghost predicate Answers(postUrls: seq<string>, net: PostNet, scs: seq<string>, outcomes: seq<Option<seq<string>>>)
  {
    |scs| == |postUrls| && |outcomes| == |postUrls| &&
    (forall i {:trigger Normalise(postUrls[i])} :: 0 <= i < |postUrls| ==> scs[i] == Normalise(postUrls[i])) &&
    (forall i {:trigger Commenters(net(i))} :: 0 <= i < |postUrls| ==> outcomes[i] == Commenters(net(i)))
  }

  /**
   * The run stopped at the `k`-th post, the first whose request raised,
   * right after that request.
   */
  predicate StoppedAt(scs: seq<string>, outcomes: seq<Option<seq<string>>>, net: PostNet, k: nat, trace: seq<Event>)
    requires |outcomes| == |scs| && k < |scs|
  {
    RaisesAt(net, k) && (forall i :: 0 <= i < k ==> !RaisesAt(net, i)) &&
    trace == [CookiesFetched] + PostEvents(scs, outcomes, k) + [PostRequest(scs[k])]
  }

  /** The state after the first `n` posts, none of whose requests raised. */
  ghost predicate Clean(postUrls: seq<string>, net: PostNet, scs: seq<string>, outcomes: seq<Option<seq<string>>>,
                        n: nat, trace: seq<Event>, results: seq<(string, string)>)
    requires |outcomes| == |scs| == |postUrls| && n <= |postUrls|
  {
    trace == [CookiesFetched] + PostEvents(scs, outcomes, n) &&
    results == ResultsUpTo(postUrls, outcomes, n) &&
    forall i :: 0 <= i < n ==> !RaisesAt(net, i)
  }

  /**
   * The loop over the post URLs, up to the post whose request raised:
   * `stop` is that post, or the number of posts when no request raised.
   */
  method ScrapeAll(postUrls: seq<string>, net: PostNet, ghost scs: seq<string>, ghost outcomes: seq<Option<seq<string>>>)
    returns (stop: nat, trace: seq<Event>, results: seq<(string, string)>)
    requires Answers(postUrls, net, scs, outcomes)
    ensures stop <= |postUrls|
    ensures stop < |postUrls| ==> StoppedAt(scs, outcomes, net, stop, trace)
    ensures stop == |postUrls| ==> forall i :: 0 <= i < stop ==> !RaisesAt(net, i)
    ensures stop == |postUrls| ==>
      trace == [CookiesFetched] + PostEvents(scs, outcomes, stop) && results == ResultsUpTo(postUrls, outcomes, stop)
  {
    trace := [CookiesFetched];
    results := [];
    for n := 0 to |postUrls|
      invariant Clean(postUrls, net, scs, outcomes, n, trace, results)
    {
      var raised;
      raised, trace, results := ScrapeAndCollect(postUrls, net, scs, outcomes, n, trace, results);
      if raised {
        return n, trace, results;
      }
    }
    stop := |postUrls|;
  }

  /**
   * One iteration of the loop: scrape the `n`-th post; when its request
   * raises, stop after the request; when it returned data, append its pairs
   * and pause.
   */
  method ScrapeAndCollect(postUrls: seq<string>, net: PostNet, ghost scs: seq<string>,
                          ghost outcomes: seq<Option<seq<string>>>, n: nat,
                          trace: seq<Event>, results: seq<(string, string)>)
    returns (raised: bool, trace': seq<Event>, results': seq<(string, string)>)
    requires Answers(postUrls, net, scs, outcomes) && n < |postUrls|
    requires trace == [CookiesFetched] + PostEvents(scs, outcomes, n)
    requires results == ResultsUpTo(postUrls, outcomes, n)
    requires forall i :: 0 <= i < n ==> !RaisesAt(net, i)
    ensures raised <==> RaisesAt(net, n)
    ensures raised ==> StoppedAt(scs, outcomes, net, n, trace')
    ensures !raised ==> trace' == [CookiesFetched] + PostEvents(scs, outcomes, n + 1)
    ensures !raised ==> results' == ResultsUpTo(postUrls, outcomes, n + 1)
  {
    var postUrl := postUrls[n];
    assert Normalise(postUrl) == scs[n] && Commenters(net(n)) == outcomes[n];
    results' := results;
    trace' := trace + [PostRequest(Normalise(postUrl))];
    var scraped := ScrapePostUncaught(postUrl, net(n));
    raised := scraped.Err?;
    if raised || scraped.value.None? {
      return;
    }
    var usernames := ExtractCommentUsernames(scraped.value.value);
    results' := AppendPairs(results, postUrl, usernames);
    trace' := trace' + [Sleep(PostPause)];
  }

  /** `for username in usernames: results.append((post_url, username))` */
  method AppendPairs(results: seq<(string, string)>, postUrl: string, usernames: seq<string>)
    returns (extended: seq<(string, string)>)
    ensures extended == results + seq(|usernames|, j requires 0 <= j < |usernames| => (postUrl, usernames[j]))
  {
    extended := results;
    for j := 0 to |usernames|
      invariant extended == results + seq(j, k requires 0 <= k < j => (postUrl, usernames[k]))
    {
      extended := extended + [(postUrl, usernames[j])];
    }
  }

  /** The pairs of one post are its URL with each of its commenters. */
  lemma PostPairsMembers(url: string, commenters: Option<seq<string>>, u: string, name: string)
    ensures (u, name) in PostPairs(url, commenters) <==> u == url && commenters.Some? && name in commenters.value
  {
    var pairs := PostPairs(url, commenters);
    if (u, name) in pairs {
      var j :| 0 <= j < |pairs| && pairs[j] == (u, name);
      assert commenters.value[j] == name;
    }
    if u == url && commenters.Some? && name in commenters.value {
      var j :| 0 <= j < |commenters.value| && commenters.value[j] == name;
      assert pairs[j] == (u, name);
    }
  }

  /** `name` is among the commenters the `i`-th post's scrape gave. */
  predicate CommentedAt(outcomes: seq<Option<seq<string>>>, i: nat, name: string)
    requires i < |outcomes|
  {
    outcomes[i].Some? && name in outcomes[i].value
  }

  /**
   * A pair is in the results exactly when one of the requests for its post
   * returned data and the username is one of that post's commenters.
   */
  lemma {:induction false} PairsFromFetchedPosts(urls: seq<string>, outcomes: seq<Option<seq<string>>>, n: nat,
                                                url: string, name: string)
    requires |outcomes| == |urls| && n <= |urls|
    ensures (url, name) in ResultsUpTo(urls, outcomes, n) <==>
      exists i :: 0 <= i < n && urls[i] == url && CommentedAt(outcomes, i, name)
  {
    if n > 0 {
      var prev := ResultsUpTo(urls, outcomes, n - 1);
      var last := PostPairs(urls[n - 1], outcomes[n - 1]);
      PairsFromFetchedPosts(urls, outcomes, n - 1, url, name);
      PostPairsMembers(urls[n - 1], outcomes[n - 1], url, name);
      if (url, name) in last {
        assert urls[n - 1] == url && CommentedAt(outcomes, n - 1, name);
      }
      if (url, name) in prev {
        var i :| 0 <= i < n - 1 && urls[i] == url && CommentedAt(outcomes, i, name);
        assert 0 <= i < n;
      }
      if exists i :: 0 <= i < n && urls[i] == url && CommentedAt(outcomes, i, name) {
        var i :| 0 <= i < n && urls[i] == url && CommentedAt(outcomes, i, name);
        if i < n - 1 {
          assert (url, name) in prev;
        } else {
          assert (url, name) in last;
        }
      }
    }
  }
}
