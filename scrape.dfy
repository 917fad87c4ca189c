/**
 * `scrape_post`: the shortcode is derived from the argument, one GraphQL
 * request is made for it, and `data["data"]["shortcode_media"]` is returned.
 * The copy in utils.py wraps the request and the parsing in one `try`, so
 * every failure yields `{}`; the copies in comment.py and comment_eng.py
 * make the request outside the `try`, so a network exception propagates.
 */
module Scrape {
  import opened Wrappers
  import opened Text
  import opened Shortcode
  import opened Comments

  /**
   * What the request returned. `Unusable`: the body is not JSON, or the
   * lookup of "data" then "shortcode_media" raises. `Media(None)`: the media
   * object is null or empty (falsy). `Media(Some(p))`: a non-empty object.
   */
  datatype Body = Unusable | Media(post: Option<Post>)

  /** One request: a network exception, or a reply of any status. */
  datatype PostResponse = Raised | Reply(body: Body)

  /**
   * The network over a run: the `i`-th post request of the run, whatever
   * shortcode it asks for, is answered by `net(i)`. The shortcode itself is
   * recorded by the callers as a `PostRequest` event.
   */
  type PostNet = nat -> PostResponse

  /** The error that escapes `scrape_post` in comment.py and comment_eng.py. */
  datatype NetworkError = NetworkError(shortcode: string)

  /**
   * utils.py's `scrape_post`, given the answer to its request for
   * `Normalise(url)`: any exception (network, JSON or lookup) gives `{}`,
   * written `None`, and so does a falsy media object.
   */
  function ScrapePost(r: PostResponse): (m: Option<Post>)
    ensures m.Some? <==> r.Reply? && r.body.Media? && r.body.post.Some?
  {
    match r
    case Reply(Media(post)) => post
    case _ => None
  }

  /**
   * comment.py's `scrape_post`, given the answer to its request for
   * `Normalise(url)`: a network exception from the request escapes, naming
   * the shortcode; only JSON and lookup errors are caught and give `{}`.
   */
  function ScrapePostUncaught(url: string, r: PostResponse): (res: Result<Option<Post>, NetworkError>)
    ensures res.Err? <==> r.Raised?
    ensures res.Err? ==> res.error.shortcode == Normalise(url)
  {
    match r
    case Raised => Err(NetworkError(Normalise(url)))
    case reply => Ok(ScrapePost(reply))
  }

  /** The two copies differ only on a network exception. */
  lemma CopiesAgree(url: string, r: PostResponse)
    ensures r.Reply? ==> ScrapePostUncaught(url, r) == Ok(ScrapePost(r))
    ensures r.Raised? ==> ScrapePost(r).None? && ScrapePostUncaught(url, r).Err?
  {
  }

  /** The commenters of a post, when `scrape_post` returned data for it. */
  function Commenters(r: PostResponse): (names: Option<seq<string>>)
    ensures names.Some? <==> ScrapePost(r).Some?
  {
    match ScrapePost(r)
    case Some(post) => Some(KeepFirst(Candidates(post)))
    case None => None
  }
}
