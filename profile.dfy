/**
 * `get_user_profile`: up to three requests to the profile endpoint, with a
 * 2 to 4 s pause after every attempt that did not return.
 */
module Profile {
  import opened Wrappers
  import opened Trace

  /** A user object, reduced to its string-valued fields. */
  type Profile = map<string, string>

  /**
   * The body of a 200 response. `Unusable`: not JSON, not an object, or a
   * null "data" (each makes the lookup raise). `NoUser`: "data" or "user"
   * missing, or "user" null. `User`: the user object.
   */
  datatype Body = Unusable | NoUser | User(user: Profile)

  /** One request: a status and body, or an exception raised by the client. */
  datatype Response = Status(code: int, body: Body) | Raised

  /** `profile.get(key, "")` */
  function Get(profile: Profile, key: string): (v: string)
    ensures key in profile ==> v == profile[key]
    ensures key !in profile ==> v == ""
  {
    if key in profile then profile[key] else ""
  }

  /** `profile.get("biography", "")` */
  function Biography(profile: Profile): string
  {
    Get(profile, "biography")
  }

  /** `retries = 3` */
  const Retries: nat := 3

  /** What one attempt returns, if it returns: the user object, `{}` standing for a missing or null one. */
  function Returned(r: Response): (p: Option<Profile>)
    ensures p.Some? <==> r.Status? && r.code == 200 && r.body != Unusable
    ensures p.Some? && r.body.User? ==> p.value == r.body.user
    ensures p.Some? && r.body.NoUser? ==> p.value == map[]
  {
    match r
    case Status(200, User(user)) => Some(user)
    case Status(200, NoUser) => Some(map[])
    case _ => None
  }

  /** The outcome of a fetch: the profile returned, the requests made and what happened. */
  datatype Fetch = Fetch(profile: Profile, requests: nat, trace: seq<Event>)

  /**
   * The attempts from `attempt` on, after the events `acc` of the attempts
   * before it; request number `start + a` of the run is answered by
   * `net(start + a)`. The result counts every request of the fetch.
   */
  function FetchFrom(username: string, net: nat -> Response, start: nat, attempt: nat, acc: seq<Event>): Fetch
    requires attempt <= Retries
    decreases Retries - attempt
  {
    if attempt == Retries then Fetch(map[], Retries, acc)
    else
      match Returned(net(start + attempt))
      case Some(p) => Fetch(p, attempt + 1, acc + [ProfileRequest(username)])
      case None => FetchFrom(username, net, start, attempt + 1, acc + [ProfileRequest(username), Sleep(Backoff)])
  }

  /** The whole of `get_user_profile`, as a function of the network. */
  function FetchProfile(username: string, net: nat -> Response, start: nat): Fetch
  {
    FetchFrom(username, net, start, 0, [])
  }

  /** `n` failed attempts: a request and a pause each. */
  function Failures(username: string, n: nat): (t: seq<Event>)
    ensures |t| == 2 * n
  {
    if n == 0 then [] else Failures(username, n - 1) + [ProfileRequest(username), Sleep(Backoff)]
  }

  /**
   * The retry loop with its early return. The request made at attempt `a`
   * is request number `start + a` of the run.
   */
  method GetUserProfile(username: string, net: nat -> Response, start: nat)
    returns (profile: Profile, requests: nat, trace: seq<Event>)
    ensures Fetch(profile, requests, trace) == FetchProfile(username, net, start)
    ensures 1 <= requests <= Retries
  {
    trace := [];
    var attempt := 0;
    while attempt < Retries
      invariant 0 <= attempt <= Retries
      invariant FetchProfile(username, net, start) == FetchFrom(username, net, start, attempt, trace)
    {
      var response := net(start + attempt);
      if response.Status? && response.code == 200 && response.body != Unusable {
        profile := if response.body.User? then response.body.user else map[];
        requests := attempt + 1;
        trace := trace + [ProfileRequest(username)];
        return;
      }
      trace := trace + [ProfileRequest(username), Sleep(Backoff)];
      attempt := attempt + 1;
    }
    profile, requests := map[], Retries;
  }

  /** The first attempt that returns decides the profile; nothing is requested after it. */
  lemma {:induction false} FirstReturnWins(username: string, net: nat -> Response, start: nat, k: nat)
    requires k < Retries && Returned(net(start + k)).Some?
    requires forall n :: start <= n < start + k ==> Returned(net(n)).None?
    ensures FetchProfile(username, net, start) ==
      Fetch(Returned(net(start + k)).value, k + 1, Failures(username, k) + [ProfileRequest(username)])
  {
    FirstReturnFrom(username, net, start, k, 0);
  }

  lemma {:induction false} FirstReturnFrom(username: string, net: nat -> Response, start: nat, k: nat, a: nat)
    requires a <= k < Retries && Returned(net(start + k)).Some?
    requires forall n :: start + a <= n < start + k ==> Returned(net(n)).None?
    ensures FetchFrom(username, net, start, a, Failures(username, a)) ==
      Fetch(Returned(net(start + k)).value, k + 1, Failures(username, k) + [ProfileRequest(username)])
    decreases k - a
  {
    if a < k {
      FirstReturnFrom(username, net, start, k, a + 1);
    }
  }

  /** When no attempt returns, the result is `{}` after three requests and three pauses. */
  lemma {:induction false} Exhausted(username: string, net: nat -> Response, start: nat)
    requires forall n :: start <= n < start + Retries ==> Returned(net(n)).None?
    ensures FetchProfile(username, net, start) == Fetch(map[], Retries, Failures(username, Retries))
    ensures Count(Failures(username, Retries), ProfileRequest(username)) == 3
    ensures Count(Failures(username, Retries), Sleep(Backoff)) == 3
  {
    assert Returned(net(start)).None? && Returned(net(start + 1)).None? && Returned(net(start + 2)).None?;
    assert FetchProfile(username, net, start) == FetchFrom(username, net, start, 1, Failures(username, 1));
    assert FetchFrom(username, net, start, 1, Failures(username, 1)) == FetchFrom(username, net, start, 2, Failures(username, 2));
    assert FetchFrom(username, net, start, 2, Failures(username, 2)) == FetchFrom(username, net, start, 3, Failures(username, 3));
    FailuresCount(username, Retries);
  }

  /** Every failed attempt is one request and one pause. */
  lemma {:induction false} FailuresCount(username: string, n: nat)
    ensures Count(Failures(username, n), ProfileRequest(username)) == n
    ensures Count(Failures(username, n), Sleep(Backoff)) == n
  {
    if n > 0 {
      FailuresCount(username, n - 1);
      var pair := [ProfileRequest(username), Sleep(Backoff)];
      CountAppend(Failures(username, n - 1), pair, ProfileRequest(username));
      CountAppend(Failures(username, n - 1), pair, Sleep(Backoff));
      assert CountUpTo(pair, ProfileRequest(username), 1) == 1 && CountUpTo(pair, Sleep(Backoff), 1) == 0;
    }
  }

  /** At most three requests, one to three of them, each but the last followed by a pause. */
  lemma {:induction false} FetchBounds(username: string, net: nat -> Response, start: nat)
    ensures var f := FetchProfile(username, net, start);
      1 <= f.requests <= Retries &&
      (f.trace == Failures(username, f.requests - 1) + [ProfileRequest(username)] ||
       (f.requests == Retries && f.trace == Failures(username, Retries) && f.profile == map[]))
  {
    if Returned(net(start)).Some? {
      FirstReturnWins(username, net, start, 0);
    } else if Returned(net(start + 1)).Some? {
      FirstReturnWins(username, net, start, 1);
    } else if Returned(net(start + 2)).Some? {
      FirstReturnWins(username, net, start, 2);
    } else {
      Exhausted(username, net, start);
    }
  }

  /** The attempts from `attempt` on add nothing but requests for the user's profile and back-offs. */
  lemma {:induction false} FetchFromEvents(username: string, net: nat -> Response, start: nat, attempt: nat, acc: seq<Event>)
    requires attempt <= Retries
    ensures forall e :: e in FetchFrom(username, net, start, attempt, acc).trace ==>
      e in acc || e == ProfileRequest(username) || e == Sleep(Backoff)
    decreases Retries - attempt
  {
    if attempt < Retries && Returned(net(start + attempt)).None? {
      FetchFromEvents(username, net, start, attempt + 1, acc + [ProfileRequest(username), Sleep(Backoff)]);
    }
  }

  /** A fetch does nothing but request the user's profile and back off. */
  lemma FetchEvents(username: string, net: nat -> Response, start: nat)
    ensures forall e :: e in FetchProfile(username, net, start).trace ==>
      e == ProfileRequest(username) || e == Sleep(Backoff)
  {
    FetchFromEvents(username, net, start, 0, []);
  }

  /** A fetch holds no 30 to 60 s pause. */
  lemma FetchNoPause(username: string, net: nat -> Response, start: nat)
    ensures Count(FetchProfile(username, net, start).trace, Sleep(ProfilePause)) == 0
  {
    FetchEvents(username, net, start);
    CountZero(FetchProfile(username, net, start).trace, Sleep(ProfilePause));
  }
}
