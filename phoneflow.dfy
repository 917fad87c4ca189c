/**
 * phone2.py and phone2_eng.py: the usernames are read from the
 * `comment_username` column of a CSV file into a set, every profile is
 * fetched, each non-empty profile is enriched in place with the phone
 * number, email and link found in its biography and kept, a 30 to 60 s
 * pause follows every username, and the kept profiles are written to a CSV
 * file with five columns.
 */
module PhoneFlow {
  import opened Wrappers
  import opened Text
  import opened Trace
  import opened Seqs
  import opened Profile
  import opened Bio

  // --- read_usernames_from_csv ---------------------------------------------

  /** A record of `csv.DictReader`: the header's columns, `None` where the line was too short. */
  type Record = map<string, Option<string>>

  const UsernameColumn: string := "comment_username"

  /**
   * The name a record adds to the set: the column's value, stripped, when
   * the column is present and its value is a non-empty string. The value is
   * tested before it is stripped.
   */
  function NameOf(row: Record, isSpace: char -> bool): Option<string>
  {
    if UsernameColumn in row && row[UsernameColumn].Some? && row[UsernameColumn].value != "" then
      Some(Strip(row[UsernameColumn].value, isSpace))
    else
      None
  }

  /**
   * How many records are read: all of them, or, when reading the record at
   * `failsAt` raises (index 0 standing for a file that cannot be opened),
   * the ones before it.
   */
  function ReadLimit(rows: seq<Record>, failsAt: Option<nat>): (n: nat)
    ensures n <= |rows|
    ensures failsAt.None? ==> n == |rows|
    ensures failsAt.Some? ==> n == if failsAt.value < |rows| then failsAt.value else |rows|
  {
    match failsAt
    case None => |rows|
    case Some(k) => if k < |rows| then k else |rows|
  }

  /** The set after the first `n` records. */
  function NamesUpTo(rows: seq<Record>, isSpace: char -> bool, n: nat): set<string>
    requires n <= |rows|
  {
    if n == 0 then {}
    else
      NamesUpTo(rows, isSpace, n - 1) +
      match NameOf(rows[n - 1], isSpace)
      case Some(u) => {u}
      case None => {}
  }

  /**
   * The loop of `read_usernames_from_csv` inside its `try`: a read that
   * raises ends the loop and the names gathered so far are returned.
   */
  method ReadUsernames(rows: seq<Record>, failsAt: Option<nat>, isSpace: char -> bool)
    returns (usernames: set<string>)
    ensures usernames == NamesUpTo(rows, isSpace, ReadLimit(rows, failsAt))
  {
    usernames := {};
    var limit := ReadLimit(rows, failsAt);
    for i := 0 to limit
      invariant usernames == NamesUpTo(rows, isSpace, i)
    {
      var row := rows[i];
      if UsernameColumn in row && row[UsernameColumn].Some? && row[UsernameColumn].value != "" {
        usernames := usernames + {Strip(row[UsernameColumn].value, isSpace)};
      }
    }
  }

  /** A name is in the set exactly when one of the records read yields it. */
  lemma {:induction false} NamesUpToMembers(rows: seq<Record>, isSpace: char -> bool, n: nat, u: string)
    requires n <= |rows|
    ensures u in NamesUpTo(rows, isSpace, n) <==> exists i :: 0 <= i < n && NameOf(rows[i], isSpace) == Some(u)
  {
    if n > 0 {
      NamesUpToMembers(rows, isSpace, n - 1, u);
      if exists i :: 0 <= i < n - 1 && NameOf(rows[i], isSpace) == Some(u) {
        var i :| 0 <= i < n - 1 && NameOf(rows[i], isSpace) == Some(u);
        assert 0 <= i < n;
      }
    }
  }

  /** Every name in the set is stripped: it neither starts nor ends with whitespace. */
  lemma NamesStripped(rows: seq<Record>, isSpace: char -> bool, n: nat, u: string)
    requires n <= |rows| && u in NamesUpTo(rows, isSpace, n) && u != ""
    ensures !isSpace(u[0]) && !isSpace(u[|u| - 1])
  {
    NamesUpToMembers(rows, isSpace, n, u);
  }

  /** A value made only of whitespace passes the truthiness test and adds the empty name. */
  lemma WhitespaceOnlyAddsEmpty(rows: seq<Record>, isSpace: char -> bool, n: nat, i: nat)
    requires i < n <= |rows|
    requires UsernameColumn in rows[i] && rows[i][UsernameColumn].Some?
    requires var v := rows[i][UsernameColumn].value; v != "" && forall k :: 0 <= k < |v| ==> isSpace(v[k])
    ensures "" in NamesUpTo(rows, isSpace, n)
  {
    assert NameOf(rows[i], isSpace) == Some("");
    NamesUpToMembers(rows, isSpace, n, "");
  }

  /** Reading fewer records never yields a name that reading more would not. */
  lemma {:induction false} NamesMonotone(rows: seq<Record>, isSpace: char -> bool, m: nat, n: nat)
    requires m <= n <= |rows|
    ensures NamesUpTo(rows, isSpace, m) <= NamesUpTo(rows, isSpace, n)
    decreases n - m
  {
    if m < n {
      NamesMonotone(rows, isSpace, m, n - 1);
    }
  }

  /** The set returned after a read error is part of the set a clean read returns. */
  lemma PartialRead(rows: seq<Record>, failsAt: nat, isSpace: char -> bool)
    ensures NamesUpTo(rows, isSpace, ReadLimit(rows, Some(failsAt))) <= NamesUpTo(rows, isSpace, ReadLimit(rows, None))
  {
    NamesMonotone(rows, isSpace, ReadLimit(rows, Some(failsAt)), |rows|);
  }

  // --- the profile loop ------------------------------------------------------

  const PhoneKey: string := "phone_number"
  const EmailKey: string := "email"
  const LinkKey: string := "link"

  /** `profile["phone_number"] = phone` and so on, from the profile's own biography. */
  function Enrich(cc: CharClasses, profile: Profile): Profile
  {
    var bio := Biography(profile);
    profile[PhoneKey := ExtractPhone(cc, bio)][EmailKey := ExtractEmail(cc, bio)][LinkKey := ExtractLink(cc, bio)]
  }

  /** The profile carries the three fields extracted from its biography. */
  ghost predicate Enriched(cc: CharClasses, profile: Profile)
  {
    var bio := Biography(profile);
    PhoneKey in profile && profile[PhoneKey] == ExtractPhone(cc, bio) &&
    EmailKey in profile && profile[EmailKey] == ExtractEmail(cc, bio) &&
    LinkKey in profile && profile[LinkKey] == ExtractLink(cc, bio)
  }

  /**
   * Enrichment adds the three fields computed from the biography, keeps the
   * biography and every other field, and drops nothing.
   */
  lemma EnrichFields(cc: CharClasses, profile: Profile)
    ensures var r := Enrich(cc, profile);
      Enriched(cc, r) && Biography(r) == Biography(profile) &&
      r.Keys == profile.Keys + {PhoneKey, EmailKey, LinkKey} &&
      forall k :: k in profile && k != PhoneKey && k != EmailKey && k != LinkKey ==> r[k] == profile[k]
  {
  }

  /** Enriching twice is enriching once, and an enriched profile is a fixed point. */
  lemma EnrichIdempotent(cc: CharClasses, profile: Profile)
    ensures Enriched(cc, profile) <==> Enrich(cc, profile) == profile
    ensures Enrich(cc, Enrich(cc, profile)) == Enrich(cc, profile)
  {
    EnrichFields(cc, profile);
    var r := Enrich(cc, profile);
    EnrichFields(cc, r);
    if Enriched(cc, profile) {
      assert r.Keys == profile.Keys;
    }
  }

  /** The loop state: the requests made, the profiles kept, and what happened. */
  datatype Collected = Collected(requests: nat, profiles: seq<Profile>, trace: seq<Event>)

  /** One username: fetch the profile, keep it enriched if it is non-empty, then pause. */
  function CollectOne(c: Collected, cc: CharClasses, net: nat -> Response, username: string): Collected
  {
    var f := FetchProfile(username, net, c.requests);
    Collected(c.requests + f.requests, c.profiles + Kept(cc, f.profile), c.trace + f.trace + [Sleep(ProfilePause)])
  }

  /** `if profile: ... profiles.append(profile)` */
  function Kept(cc: CharClasses, profile: Profile): seq<Profile>
  {
    if profile != map[] then [Enrich(cc, profile)] else []
  }

  /** `get_user_profile` against the network, from the username and the requests made before it. */
  function NetFetch(net: nat -> Response): (string, nat) -> Fetch
  {
    (username: string, start: nat) => FetchProfile(username, net, start)
  }

  /** A fetch that makes one to three requests. */
  ghost predicate Bounded(fetch: (string, nat) -> Fetch)
  {
    forall username: string, start: nat :: 1 <= fetch(username, start).requests <= Retries
  }

  /** A fetch that holds no 30 to 60 s pause. */
  ghost predicate Unpaused(fetch: (string, nat) -> Fetch)
  {
    forall username: string, start: nat :: Count(fetch(username, start).trace, Sleep(ProfilePause)) == 0
  }

  /** `get_user_profile` is such a fetch. */
  lemma NetFetchBounded(net: nat -> Response)
    ensures Bounded(NetFetch(net)) && Unpaused(NetFetch(net))
  {
    forall username: string, start: nat
      ensures 1 <= NetFetch(net)(username, start).requests <= Retries &&
        Count(NetFetch(net)(username, start).trace, Sleep(ProfilePause)) == 0
    {
      FetchBounds(username, net, start);
      FetchNoPause(username, net, start);
    }
  }

  /**
   * The fetches of the first `j` usernames, in the set's iteration order:
   * the requests made, every profile returned (empty ones included), and
   * what happened.
   */
  function FetchedUpTo(order: seq<string>, fetch: (string, nat) -> Fetch, j: nat): Collected
    requires j <= |order|
  {
    if j == 0 then Collected(0, [], [])
    else
      var c := FetchedUpTo(order, fetch, j - 1);
      var f := fetch(order[j - 1], c.requests);
      Collected(c.requests + f.requests, c.profiles + [f.profile], c.trace + f.trace + [Sleep(ProfilePause)])
  }

  /** The profiles `main` keeps out of those returned: the non-empty ones, enriched, in order. */
  function KeptAll(cc: CharClasses, profiles: seq<Profile>): seq<Profile>
  {
    if profiles == [] then []
    else KeptAll(cc, profiles[..|profiles| - 1]) + Kept(cc, profiles[|profiles| - 1])
  }

  /** The loop state after the first `j` usernames. */
  function CollectUpTo(order: seq<string>, cc: CharClasses, net: nat -> Response, j: nat): Collected
    requires j <= |order|
  {
    var f := FetchedUpTo(order, NetFetch(net), j);
    Collected(f.requests, KeptAll(cc, f.profiles), f.trace)
  }

  /** The loop state after one more username is what the loop body makes of the state before it. */
  lemma CollectUpToStep(order: seq<string>, cc: CharClasses, net: nat -> Response, j: nat)
    requires j < |order|
    ensures CollectUpTo(order, cc, net, j + 1) == CollectOne(CollectUpTo(order, cc, net, j), cc, net, order[j])
  {
    var f := FetchedUpTo(order, NetFetch(net), j);
    var g := FetchProfile(order[j], net, f.requests);
    assert NetFetch(net)(order[j], f.requests) == g;
    assert (f.profiles + [g.profile])[..|f.profiles|] == f.profiles;
  }

  /** An enriched profile is never empty. */
  lemma EnrichNonEmpty(cc: CharClasses, profile: Profile)
    ensures Enrich(cc, profile) != map[] && Enriched(cc, Enrich(cc, profile))
  {
    EnrichFields(cc, profile);
    assert PhoneKey in Enrich(cc, profile);
  }

  /** The `j`-th username adds one to three requests and one profile to the state before it. */
  lemma FetchedStep(order: seq<string>, fetch: (string, nat) -> Fetch, j: nat)
    requires 0 < j <= |order| && Bounded(fetch)
    ensures var prev, c := FetchedUpTo(order, fetch, j - 1), FetchedUpTo(order, fetch, j);
      prev.requests + 1 <= c.requests <= prev.requests + Retries &&
      |c.profiles| == |prev.profiles| + 1
  {
    var prev := FetchedUpTo(order, fetch, j - 1);
    assert 1 <= fetch(order[j - 1], prev.requests).requests <= Retries;
  }

  /** After `j` usernames: one profile each, and one to three requests each. */
  lemma {:induction false} FetchedAccounting(order: seq<string>, fetch: (string, nat) -> Fetch, j: nat)
    requires j <= |order| && Bounded(fetch)
    ensures var c := FetchedUpTo(order, fetch, j);
      j <= c.requests <= 3 * j && |c.profiles| == j
  {
    if j > 0 {
      FetchedAccounting(order, fetch, j - 1);
      FetchedStep(order, fetch, j);
    }
  }

  /** The `j`-th username adds one 30 to 60 s pause to the state before it. */
  lemma FetchedPauseStep(order: seq<string>, fetch: (string, nat) -> Fetch, j: nat)
    requires 0 < j <= |order| && Unpaused(fetch)
    ensures var prev, c := FetchedUpTo(order, fetch, j - 1), FetchedUpTo(order, fetch, j);
      Count(c.trace, Sleep(ProfilePause)) == Count(prev.trace, Sleep(ProfilePause)) + 1
  {
    var prev := FetchedUpTo(order, fetch, j - 1);
    var f := fetch(order[j - 1], prev.requests);
    CountAppend(prev.trace, f.trace, Sleep(ProfilePause));
    CountAppend(prev.trace + f.trace, [Sleep(ProfilePause)], Sleep(ProfilePause));
  }

  /** After `j` usernames: one 30 to 60 s pause each. */
  lemma {:induction false} FetchedPauses(order: seq<string>, fetch: (string, nat) -> Fetch, j: nat)
    requires j <= |order| && Unpaused(fetch)
    ensures Count(FetchedUpTo(order, fetch, j).trace, Sleep(ProfilePause)) == j
  {
    if j > 0 {
      FetchedPauses(order, fetch, j - 1);
      FetchedPauseStep(order, fetch, j);
    }
  }

  /** At most one profile is kept per profile returned, and every one kept is non-empty and enriched. */
  lemma {:induction false} KeptAllEnriched(cc: CharClasses, profiles: seq<Profile>)
    ensures |KeptAll(cc, profiles)| <= |profiles|
    ensures forall i :: 0 <= i < |KeptAll(cc, profiles)| ==>
      KeptAll(cc, profiles)[i] != map[] && Enriched(cc, KeptAll(cc, profiles)[i])
  {
    if profiles != [] {
      var init, last := profiles[..|profiles| - 1], profiles[|profiles| - 1];
      KeptAllEnriched(cc, init);
      if last != map[] {
        EnrichNonEmpty(cc, last);
      }
      var prev, r := KeptAll(cc, init), KeptAll(cc, profiles);
      forall i | 0 <= i < |r|
        ensures r[i] != map[] && Enriched(cc, r[i])
      {
        if i < |prev| {
          assert r[i] == prev[i];
        }
      }
    }
  }

  /** Keeping distributes over one more profile returned. */
  lemma KeptAllSnoc(cc: CharClasses, init: seq<Profile>, last: Profile)
    ensures KeptAll(cc, init + [last]) == KeptAll(cc, init) + Kept(cc, last)
  {
    assert (init + [last])[..|init|] == init;
  }

  /** A profile is kept exactly when a non-empty profile was returned; it is the enriched one. */
  lemma {:induction false} KeptAllMembers(cc: CharClasses, profiles: seq<Profile>, p: Profile)
    ensures p in KeptAll(cc, profiles) <==> exists q :: q in profiles && q != map[] && p == Enrich(cc, q)
  {
    if profiles != [] {
      var init, last := profiles[..|profiles| - 1], profiles[|profiles| - 1];
      assert profiles == init + [last];
      KeptAllSnoc(cc, init, last);
      KeptAllMembers(cc, init, p);
      if p in KeptAll(cc, init) {
        var q :| q in init && q != map[] && p == Enrich(cc, q);
        assert q in profiles;
      }
      if exists q :: q in profiles && q != map[] && p == Enrich(cc, q) {
        var q :| q in profiles && q != map[] && p == Enrich(cc, q);
        if q != last {
          assert q in init;
        }
      }
    }
  }

  /** The body of the loop in `main`. */
  method FetchAndEnrich(c: Collected, cc: CharClasses, net: nat -> Response, username: string)
    returns (d: Collected)
    ensures d == CollectOne(c, cc, net, username)
  {
    var profile, requests, events := GetUserProfile(username, net, c.requests);
    var profiles := c.profiles;
    if profile != map[] {
      var bio := Biography(profile);
      var phone := ExtractPhone(cc, bio);
      var email := ExtractEmail(cc, bio);
      var link := ExtractLink(cc, bio);
      profile := profile[PhoneKey := phone];
      profile := profile[EmailKey := email];
      profile := profile[LinkKey := link];
      profiles := profiles + [profile];
    }
    d := Collected(c.requests + requests, profiles, c.trace + events + [Sleep(ProfilePause)]);
  }

  // --- write_profiles_to_csv -------------------------------------------------

  const Columns: seq<string> := ["username", "biography", "phone_number", "email", "link"]

  /** The row of one profile: its value for each column, `""` where it has none. */
  function Project(profile: Profile): (row: seq<string>)
    ensures |row| == |Columns|
    ensures forall k :: 0 <= k < |Columns| ==> row[k] == Get(profile, Columns[k])
  {
    [Get(profile, "username"), Get(profile, "biography"), Get(profile, "phone_number"),
     Get(profile, "email"), Get(profile, "link")]
  }

  /** The header, then one row per profile, in order. */
  method WriteProfilesToCsv(profiles: seq<Profile>) returns (rows: seq<seq<string>>)
    ensures |rows| == |profiles| + 1 && rows[0] == Columns
    ensures forall i :: 0 <= i < |profiles| ==> rows[i + 1] == Project(profiles[i])
  {
    rows := [Columns];
    for i := 0 to |profiles|
      invariant |rows| == i + 1 && rows[0] == Columns
      invariant forall j :: 0 <= j < i ==> rows[j + 1] == Project(profiles[j])
    {
      rows := rows + [Project(profiles[i])];
    }
  }

  /** The row of an enriched profile holds the three fields extracted from the biography it holds. */
  lemma ProjectEnriched(cc: CharClasses, profile: Profile)
    requires Enriched(cc, profile)
    ensures var row := Project(profile);
      row[2] == ExtractPhone(cc, row[1]) && row[3] == ExtractEmail(cc, row[1]) && row[4] == ExtractLink(cc, row[1])
  {
  }

  // --- main ------------------------------------------------------------------

  /**
   * `main()`: read the set, visit it in `order` (the set's iteration order,
   * which Python leaves unspecified), and write the kept profiles.
   */
  method PhoneMain(rows: seq<Record>, failsAt: Option<nat>, isSpace: char -> bool, order: seq<string>,
                   net: nat -> Response, cc: CharClasses)
    returns (trace: seq<Event>, csv: seq<seq<string>>)
    requires Distinct(order)
    requires forall u :: u in order <==> u in NamesUpTo(rows, isSpace, ReadLimit(rows, failsAt))
    ensures var c := CollectUpTo(order, cc, net, |order|);
      trace == c.trace &&
      |csv| == |c.profiles| + 1 && csv[0] == Columns &&
      forall i :: 0 <= i < |c.profiles| ==> csv[i + 1] == Project(c.profiles[i])
  {
    var usernames := ReadUsernames(rows, failsAt, isSpace);
    var c := Collected(0, [], []);
    for j := 0 to |order|
      invariant c == CollectUpTo(order, cc, net, j)
    {
      c := FetchAndEnrich(c, cc, net, order[j]);
      CollectUpToStep(order, cc, net, j);
    }
    trace := c.trace;
    csv := WriteProfilesToCsv(c.profiles);
  }

  /**
   * Every username read is visited once, with one pause each; every data
   * row of the output holds a non-empty profile's fields, its phone, email
   * and link being the ones extracted from the biography it holds.
   */
  lemma PhoneMainProperties(rows: seq<Record>, failsAt: Option<nat>, isSpace: char -> bool, order: seq<string>,
                            net: nat -> Response, cc: CharClasses)
    requires Distinct(order)
    requires forall u :: u in order <==> u in NamesUpTo(rows, isSpace, ReadLimit(rows, failsAt))
    ensures var c := CollectUpTo(order, cc, net, |order|);
      Count(c.trace, Sleep(ProfilePause)) == |NamesUpTo(rows, isSpace, ReadLimit(rows, failsAt))| &&
      |c.profiles| <= |order| &&
      forall i :: 0 <= i < |c.profiles| ==>
        var row := Project(c.profiles[i]);
        row[2] == ExtractPhone(cc, row[1]) && row[3] == ExtractEmail(cc, row[1]) && row[4] == ExtractLink(cc, row[1])
  {
    var names := NamesUpTo(rows, isSpace, ReadLimit(rows, failsAt));
    NetFetchBounded(net);
    FetchedAccounting(order, NetFetch(net), |order|);
    FetchedPauses(order, NetFetch(net), |order|);
    KeptAllEnriched(cc, FetchedUpTo(order, NetFetch(net), |order|).profiles);
    DistinctCard(order, names);
    var c := CollectUpTo(order, cc, net, |order|);
    forall i | 0 <= i < |c.profiles|
      ensures var row := Project(c.profiles[i]);
        row[2] == ExtractPhone(cc, row[1]) && row[3] == ExtractEmail(cc, row[1]) && row[4] == ExtractLink(cc, row[1])
    {
      ProjectEnriched(cc, c.profiles[i]);
    }
  }

  /** A sequence without repeats that lists a set has the set's size. */
  lemma {:induction false} DistinctCard(xs: seq<string>, s: set<string>)
    requires Distinct(xs)
    requires forall u :: u in xs <==> u in s
    ensures |xs| == |s|
  {
    if xs != [] {
      var last := xs[|xs| - 1];
      var init := xs[..|xs| - 1];
      assert Distinct(init) by {
        forall i, j | 0 <= i < j < |init|
          ensures init[i] != init[j]
        {
          assert init[i] == xs[i] && init[j] == xs[j];
        }
      }
      forall u
        ensures u in init <==> u in s - {last}
      {
        if u in init {
          var i :| 0 <= i < |init| && init[i] == u;
          assert xs[i] == u && i < |xs| - 1;
        }
        if u in s - {last} {
          assert u in xs;
          var i :| 0 <= i < |xs| && xs[i] == u;
          assert i != |xs| - 1;
          assert init[i] == u;
        }
      }
      DistinctCard(init, s - {last});
    } else {
      assert forall u :: u !in s;
      assert s == {};
    }
  }
}
