/**
 * The loop over post URLs shared by main.py and comment.py: one GraphQL
 * request per post, for its shortcode, and a 2 s pause after every post
 * whose scrape returned data. The events are stated over the shortcodes
 * requested and what each request gave, so that they hold whatever the
 * network answers.
 */
module PostLoop {
  import opened Wrappers
  import opened Trace
  import opened Shortcode
  import opened Scrape

  /**
   * What the scrape of each post gave, request by request: its commenters,
   * or `None`. The `i`-th post is answered by `net(i)`.
   */
  function Outcomes(urls: seq<string>, net: PostNet): (o: seq<Option<seq<string>>>)
    ensures |o| == |urls|
  {
    seq(|urls|, i requires 0 <= i < |urls| => Commenters(net(i)))
  }

  /** The shortcode each post's request asks for. */
  function Shortcodes(urls: seq<string>): (scs: seq<string>)
    ensures |scs| == |urls|
  {
    seq(|urls|, i requires 0 <= i < |urls| => Normalise(urls[i]))
  }

  /** One post's events: the request for its shortcode, and a 2 s pause when it returned data. */
  function PostStep(shortcode: string, outcome: Option<seq<string>>): seq<Event>
  {
    [PostRequest(shortcode)] + (if outcome.Some? then [Sleep(PostPause)] else [])
  }

  /** The events of the first `n` posts, given the shortcodes requested and what each request gave. */
  function PostEvents(scs: seq<string>, outcomes: seq<Option<seq<string>>>, n: nat): seq<Event>
    requires |outcomes| == |scs| && n <= |scs|
  {
    if n == 0 then [] else PostEvents(scs, outcomes, n - 1) + PostStep(scs[n - 1], outcomes[n - 1])
  }

  /** How many of the first `n` posts returned data. */
  function FetchedTotal(outcomes: seq<Option<seq<string>>>, n: nat): (c: nat)
    requires n <= |outcomes|
    ensures c <= n
  {
    if n == 0 then 0
    else FetchedTotal(outcomes, n - 1) + (if outcomes[n - 1].Some? then 1 else 0)
  }

  /** One post: one request, and one 2 s pause when it returned data. */
  lemma PostStepCount(shortcode: string, outcome: Option<seq<string>>)
    ensures Count(PostStep(shortcode, outcome), Sleep(PostPause)) == if outcome.Some? then 1 else 0
    ensures Count(PostStep(shortcode, outcome), Sleep(ProfilePause)) == 0
    ensures |PostStep(shortcode, outcome)| == if outcome.Some? then 2 else 1
  {
    var req := [PostRequest(shortcode)];
    assert Count(req, Sleep(PostPause)) == 0 && Count(req, Sleep(ProfilePause)) == 0;
    if outcome.Some? {
      CountAppend(req, [Sleep(PostPause)], Sleep(PostPause));
      CountAppend(req, [Sleep(PostPause)], Sleep(ProfilePause));
    } else {
      assert PostStep(shortcode, outcome) == req;
    }
  }

  /** The 2 s pause follows exactly the posts that returned data; no 30 to 60 s pause occurs. */
  lemma {:induction false} PostPauses(scs: seq<string>, outcomes: seq<Option<seq<string>>>, n: nat)
    requires |outcomes| == |scs| && n <= |scs|
    ensures Count(PostEvents(scs, outcomes, n), Sleep(PostPause)) == FetchedTotal(outcomes, n)
    ensures Count(PostEvents(scs, outcomes, n), Sleep(ProfilePause)) == 0
    ensures |PostEvents(scs, outcomes, n)| == n + FetchedTotal(outcomes, n)
  {
    if n > 0 {
      PostPauses(scs, outcomes, n - 1);
      var prev := PostEvents(scs, outcomes, n - 1);
      var step := PostStep(scs[n - 1], outcomes[n - 1]);
      PostStepCount(scs[n - 1], outcomes[n - 1]);
      CountAppend(prev, step, Sleep(PostPause));
      CountAppend(prev, step, Sleep(ProfilePause));
    }
  }
}
