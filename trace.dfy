/** What the scripts do observably besides returning values: requests, pauses and CSV output. */
module Trace {

  /** The three pauses: 2 s after a post, 2 to 4 s before retrying a profile, 30 to 60 s after a commenter. */
  datatype Pause = PostPause | Backoff | ProfilePause

  datatype Event =
    | CookiesFetched                       // the browser session that yields the cookie jar
    | PostRequest(shortcode: string)       // one GraphQL request for a post
    | ProfileRequest(username: string)     // one `web_profile_info` request
    | Sleep(pause: Pause)
    | RowWritten(fields: seq<string>)      // one CSV row, in column order
    | Flushed                              // the CSV file is flushed

  /** How many times `e` occurs in `trace`. */
  function Count(trace: seq<Event>, e: Event): (n: nat)
    ensures n <= |trace|
  {
    CountUpTo(trace, e, |trace|)
  }

  /** How many times `e` occurs among the first `k` events of `trace`. */
  function CountUpTo(trace: seq<Event>, e: Event, k: nat): (n: nat)
    requires k <= |trace|
    ensures n <= k
  {
    if k == 0 then 0 else CountUpTo(trace, e, k - 1) + (if trace[k - 1] == e then 1 else 0)
  }

  /** The count over a prefix does not look past it. */
  lemma {:induction false} CountUpToPrefix(a: seq<Event>, b: seq<Event>, e: Event, k: nat)
    requires k <= |a|
    ensures CountUpTo(a + b, e, k) == CountUpTo(a, e, k)
  {
    if k > 0 {
      CountUpToPrefix(a, b, e, k - 1);
      assert (a + b)[k - 1] == a[k - 1];
    }
  }

  /** An event is counted zero times among the first `k` exactly when it is not among them. */
  lemma {:induction false} CountUpToZero(trace: seq<Event>, e: Event, k: nat)
    requires k <= |trace|
    ensures CountUpTo(trace, e, k) == 0 <==> forall i :: 0 <= i < k ==> trace[i] != e
  {
    if k > 0 {
      CountUpToZero(trace, e, k - 1);
    }
  }

  /** An event is counted zero times exactly when it does not occur. */
  lemma CountZero(trace: seq<Event>, e: Event)
    ensures Count(trace, e) == 0 <==> e !in trace
  {
    CountUpToZero(trace, e, |trace|);
  }

  /** Counting past the end of `a` adds the count over the start of `b`. */
  lemma {:induction false} CountUpToAppend(a: seq<Event>, b: seq<Event>, e: Event, j: nat)
    requires j <= |b|
    ensures CountUpTo(a + b, e, |a| + j) == Count(a, e) + CountUpTo(b, e, j)
  {
    if j == 0 {
      CountUpToPrefix(a, b, e, |a|);
    } else {
      CountUpToAppend(a, b, e, j - 1);
      assert (a + b)[|a| + j - 1] == b[j - 1];
    }
  }

  /** Counting distributes over concatenation. */
  lemma CountAppend(a: seq<Event>, b: seq<Event>, e: Event)
    ensures Count(a + b, e) == Count(a, e) + Count(b, e)
  {
    CountUpToAppend(a, b, e, |b|);
  }
}
