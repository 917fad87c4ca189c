# Instagram hashtag scraper: a Dafny model of its core

The scraper searches a hashtag, collects the commenters of the posts it
finds, fetches each commenter's public profile, and extracts a phone
number, an email address and a link from the profile's biography. It comes
as three scripts sharing the same building blocks:

- `main.py` (with `utils.py`): the hashtag is searched, the post URLs are cut
  to `max_posts`, the commenters of every post are gathered into a dict keyed
  by post URL, then every commenter's profile is fetched and a CSV row is
  written and flushed for each non-empty profile, with a 30 to 60 s pause
  after every commenter.
- `comment.py` and its English copy `comment_eng.py`: every post found is
  scraped and the (post URL, commenter) pairs are written to a CSV file.
  Here the request in `scrape_post` is made outside the `try`, so a network
  exception ends the run.
- `phone2.py` and its English copy `phone2_eng.py`: usernames are read from
  that CSV file into a set, every profile is fetched, each non-empty profile
  is enriched in place with the three extracted fields, and the kept
  profiles are written to a CSV file with five columns.

The English copies differ from their originals only in comments, log
messages and line numbers: `comment_eng.py` has the functions of
`comment.py` shifted by a few lines (href filter 52-58, cookie fold 63-69,
`scrape_post` 71-100, `extract_comment_usernames` 102-122, main loop
142-155), and `phone2_eng.py` has the line layout of `phone2.py`. The
building blocks that `comment.py` repeats from `utils.py` differ in more
than that:

- `scrape_post` (utils.py:129-170, comment.py:64-92) makes its request
  inside the `try` in utils.py and before it in comment.py; comment.py also
  prints `response.text` (comment.py:85), and it sends a fixed User-Agent
  (comment.py:81) where utils.py picks one at random (utils.py:151).
- `get_cookies_from_driver` in utils.py:96-123 launches Chrome itself and
  waits on the login page until the user confirms a manual login; in
  comment.py:57-62 it only folds the cookies of a driver it is given, and
  the browser is set up in `main` (comment.py:122-131) with no login wait.

The first difference is modelled (`Scrape.ScrapePost` and
`Scrape.ScrapePostUncaught`); the headers, the logging and the browser
session fall under the randomness, logging and Selenium items of
"## Left out", and both cookie functions reduce to the same fold
(`Cookies.CookieDict`). Each building block is therefore one Dafny module,
and the table below cites one copy of each.

How the outside world appears in the model:

- **Network.** Every request is answered by an oracle. A post request is
  answered by `PostNet = nat -> PostResponse`: the `i`-th post request of
  the run gets `net(i)`. A profile request is answered by
  `nat -> Response`, indexed by the number of profile requests made before
  it. An answer is a status and an abstract body, or a raised exception.
- **Effects.** What a run does is a trace of `Trace.Event`s: the cookie
  fetch, each post and profile request, each pause (by kind: the 2 s pause
  after a post, the 2 to 4 s back-off, the 30 to 60 s pause after a
  profile), each CSV row written and each flush.
- **Regex classes.** Python's Unicode `\d` and `\s` are the parameters
  `Bio.CharClasses(digit, space)`. The email pattern uses only ASCII
  classes, which are written out.
- **Dicts and sets.** The dict `post_to_usernames` is `MainFlow.Dict`, which
  keeps its keys in insertion order. Where a script iterates over a set, the
  order is a parameter, a sequence without repeats listing the set.

Modules: `Text` (Python `in`, `split`, `strip`, slicing), `Shortcode` (URL
normalisation and the href filter), `Comments` (`extract_comment_usernames`),
`Scrape` (`scrape_post`), `Bio` (the three extractors) with worked examples
in `BioExamples`, `Cookies` (the cookie fold), `Profile`
(`get_user_profile`), `PostLoop` (the post loop shared by `main.py` and
`comment.py`), `MainFlow` (`main.py`), `Harvest` (`comment.py`),
`PhoneFlow` (`phone2.py`), and the helpers `Wrappers`, `Seqs` and `Trace`.

## Model

| member | source | states |
|---|---|---|
| Text.IndexOf | utils.py:133 | the first occurrence of a substring at or after a position, and `None` exactly when there is none from there on |
| Text.ContainsIff | utils.py:133 | Python's `sub in s` holds exactly when `sub` occurs at some index of `s` |
| Text.SplitJoin | utils.py:134 | joining the pieces of `s.split(sep)` with `sep` gives back `s`, so the split loses nothing |
| Text.SplitPiecesFree | utils.py:134 | no piece of a split contains the separator |
| Text.SplitManyIff | utils.py:134 | a split yields more than one piece exactly when the separator occurs |
| Text.LastPieceIsSuffix | utils.py:134 | `s.split(sep)[-1]` is the suffix of `s` after the last separator found by the left-to-right scan |
| Text.LastPieceAfterSep | utils.py:134 | the last piece of a split starts at the beginning of the string or right after an occurrence of the separator |
| Text.Strip | phone2.py:93 | `str.strip()` cuts only whitespace, from both ends, leaves no whitespace at either end, and gives "" exactly when the string is all whitespace |
| Text.SlicePrefix | main.py:32 | `xs[:n]` is a prefix of `xs`: the first `n` items for `n >= 0` (all when `n` is larger), and all but the last `-n` items for negative `n` |
| Shortcode.ShortcodeOf | utils.py:134 | the shortcode taken from a URL never contains "/" |
| Shortcode.ShortcodeIsLastSegment | utils.py:134 | the shortcode is the text right after the last "/p/" taken by the left-to-right split (the whole URL when there is none), up to the first following "/" or to the end |
| Shortcode.NormaliseCases | utils.py:133-136 | an argument without "http" is used unchanged; one with "http" is cut down to a shortcode without "/" |
| Shortcode.RoundTrip | utils.py:133-136 | normalising the canonical URL `https://www.instagram.com/p/<sc>/` of a shortcode without "/" gives back the shortcode |
| Shortcode.SlashFreeFixed | comment.py:65-68 | a bare shortcode without "/" is its own shortcode, even when it contains "http" |
| Shortcode.BaseUrlStable | utils.py:88 | rebuilding the canonical URL from its own normalised shortcode gives the same URL |
| Shortcode.PostUrlOf | utils.py:86-88 | the filter makes a URL of a link exactly when the link is present, non-empty, contains "/p/" and contains neither "liked_by" nor "comments" |
| Shortcode.PostUrlCanonical | utils.py:87-88 | every URL the filter makes is canonical and normalises to the link's shortcode |
| Shortcode.CollectedMembers | comment.py:47-52 | a URL is in the set after `n` links exactly when one of the first `n` links made it |
| Shortcode.CollectPostUrls | utils.py:83-89 | the set built by the loop holds exactly the URLs made from the kept links, all canonical, each once |
| Comments.UsernameOf | utils.py:185-188 | a username is taken from an edge only when it is truthy, so never "" |
| Comments.Candidates | utils.py:183-187 | one candidate per edge of the chosen comment list, and a username is among them exactly when some edge of that list carries it |
| Comments.KeepFirstMembers | utils.py:188-189 | a name is kept exactly when it is one of the candidates |
| Comments.KeepFirstDistinct | utils.py:188 | no name is kept twice |
| Comments.KeepFirstOrder | utils.py:188-189 | the kept names are in the order of their first occurrence among the candidates |
| Comments.ExtractCommentUsernames | utils.py:172-192 | the loop returns every truthy username of the chosen list, once each, in first-occurrence order, and never "" |
| Comments.ParentKeyWins | utils.py:178-183 | a present "edge_media_to_parent_comment" alone decides the result whatever "edge_media_to_comment" holds; no names come out when the chosen value is falsy under either key, when it is an object without "edges", or when both keys are absent |
| Comments.KeepFirstExample | comment.py:112-113 | `[alice, bob, alice, missing, missing, carl]` keeps `[alice, bob, carl]` |
| Comments.ExtractExample | comment_eng.py:108-122 | a post whose parent-comment edges name alice, bob, alice, "" and carl, plus a node without owner, and whose other comment key names zed, yields `[alice, bob, carl]` |
| Scrape.ScrapePost | utils.py:154-170 | with the request inside the `try`, data comes back exactly when the reply parses and holds a non-empty media object; everything else, a network exception included, is `{}` |
| Scrape.ScrapePostUncaught | comment.py:84-92 | with the request outside the `try`, the call raises exactly when the request raises, naming the requested shortcode |
| Scrape.CopiesAgree | comment.py:84-92 | the two copies of `scrape_post` agree on every reply; they differ only on a network exception, which the utils.py copy swallows and the comment.py copy lets through |
| Scrape.Commenters | main.py:44-48 | a post gives a commenter list exactly when its scrape returned data |
| Bio.PhoneAtCorrect | utils.py:227 | the phone matcher at a position returns the longest phone-shaped substring starting there, or reports that none starts there |
| Bio.EmailAtCorrect | utils.py:232 | the email matcher at a position returns the longest email-shaped substring starting there, or reports that none starts there |
| Bio.LinkAtCorrect | utils.py:237 | the link matcher at a position returns the longest link-shaped substring starting there, or reports that none starts there |
| Bio.MatchAtCorrect | phone2.py:55 | for each pattern, the match at a position is the longest one starting there, and none is reported only when none exists |
| Bio.FindFirstCorrect | utils.py:228 | the scan stops at the leftmost position where a match starts and takes the longest match there; when it finds nothing, no position admits a match |
| Bio.ExtractCorrect | utils.py:228-229 | `findall(...)[0]` or "" is "" exactly when no substring matches, and otherwise the leftmost, then longest, match |
| Bio.PhoneLeftmostLongest | utils.py:226-229 | `extract_phone_from_bio` gives "" exactly when the biography holds no phone-shaped substring, and otherwise the leftmost, longest one |
| Bio.EmailLeftmostLongest | utils.py:231-234 | `extract_email_from_bio` gives "" exactly when the biography holds no email-shaped substring, and otherwise the leftmost, longest one |
| Bio.LinkLeftmostLongest | utils.py:236-239 | `extract_link_from_bio` gives "" exactly when the biography holds no link-shaped substring, and otherwise the leftmost, longest one |
| Bio.ExtendPhone | phone2.py:55 | a phone match followed by more digits, spaces or dashes and a digit extends to a longer match |
| Bio.PhoneEndsAtLastDigitOfRun | utils.py:227 | the phone number found ends at the last digit of its maximal run of digits, spaces and dashes |
| Bio.ExtendEmail | phone2.py:65 | an email match followed by more domain characters and a dot with two letters extends to a longer match |
| Bio.EmailDomainIsLongest | utils.py:232 | the email found ends after its letters, and no later dot of its domain run is followed by two letters |
| Bio.ExtendTld | phone2.py:65 | an email match followed by a letter extends by that letter |
| Bio.LinkEndsAtSpace | utils.py:237 | the link found ends at whitespace or at the end of the biography |
| Bio.ExtendLink | phone2.py:75 | a link match followed by a non-whitespace character extends by it |
| BioExamples.PhoneExample | utils.py:227 | "Call me +1 234-567-8901 or x" gives "+1 234-567-8901" |
| BioExamples.EmailExample | utils.py:232 | "a@b.com.x" gives "a@b.com" |
| BioExamples.LinkExample | utils.py:237 | "see https://example.com/alice now" gives "https://example.com/alice" |
| BioExamples.EmptyBioExample | utils.py:228-229 | an empty biography gives "" for all three fields |
| Cookies.CookieDict | utils.py:116-119 | the jar's keys are exactly the cookie names, and a repeated name keeps the value of its last cookie |
| Profile.Returned | utils.py:214-216 | an attempt returns exactly on a 200 reply with a usable body, giving the user object, or `{}` when "data" or "user" is missing |
| Profile.GetUserProfile | utils.py:198-224 | the retry loop with its early return computes the fetch the network determines, with one to three requests |
| Profile.FirstReturnWins | utils.py:210-216 | the first attempt that returns decides the profile, even `{}`, after a request and a back-off for each attempt before it, and nothing is requested after it |
| Profile.Exhausted | utils.py:221-224 | when no attempt returns, the result is `{}` after exactly three requests and three back-offs |
| Profile.FailuresCount | utils.py:219-223 | `n` failed attempts hold `n` requests and `n` back-offs |
| Profile.FetchBounds | utils.py:209-224 | every fetch makes one to three requests, with a back-off after each but the one that returned, or three back-offs and `{}` |
| Profile.FetchEvents | utils.py:209-223 | a fetch does nothing but request the user's profile and back off |
| Profile.FetchNoPause | utils.py:221-223 | a fetch never holds the 30 to 60 s pause |
| PostLoop.PostStepCount | main.py:44-50 | one post is one request, followed by the 2 s pause only when the scrape returned data |
| PostLoop.PostPauses | main.py:42-50 | over the first `n` posts, the 2 s pauses are as many as the posts that returned data, and the 30 to 60 s pause never occurs |
| MainFlow.PutValid | main.py:49 | assigning a key keeps the dict's key list free of repeats and equal to its keys |
| MainFlow.PutEntries | main.py:49 | assignment sets that key only; a present key keeps its place and a new one goes last |
| MainFlow.GatheredValid | main.py:39-50 | the dict is well formed after every post |
| MainFlow.GatheredKeys | main.py:45-49 | a post URL is a key exactly when one of its scrapes returned data; a post whose scrape gave `{}` is absent |
| MainFlow.GatheredLastWins | main.py:49 | a key holds the commenter list of the last of its scrapes that returned data, an empty list included |
| MainFlow.ScrapeHashtag | main.py:19-90 | an empty search does nothing; otherwise the run is the cookie fetch, phase 1 over `all_posts[:max_posts]`, the header row, then phase 2 over the dict in insertion order |
| MainFlow.CollectCommenters | main.py:42-50 | phase 1 builds the dict of the posts that returned data and makes one request per post |
| MainFlow.GatherPost | main.py:43-50 | one iteration: `continue` on `{}` without a pause, otherwise the entry and the 2 s pause |
| MainFlow.ScrapeCommenters | main.py:44-48 | scrape, then extract the commenters when data came back |
| MainFlow.WriteProfiles | main.py:61-88 | the nested loops visit every commenter of every post, in insertion order then list order |
| MainFlow.VisitUser | main.py:63-88 | one commenter: the fetch, a row and a flush for a non-empty profile, then the pause |
| MainFlow.AfterFetchPause | main.py:86-88 | each commenter is followed by exactly one 30 to 60 s pause, whatever the fetch gave |
| MainFlow.AfterFetchRows | main.py:66-80 | after a fetch a row is written exactly when the profile is non-empty |
| MainFlow.VisitRowCount | main.py:65-84 | visiting a commenter writes one row when the fetched profile is non-empty and none when it is `{}` |
| MainFlow.VisitUsersRowCount | main.py:63-84 | the commenters of one post add one row per non-empty profile fetched, so at most one row per commenter |
| MainFlow.VisitPostsRowCount | main.py:61-88 | phase 2 writes exactly one row per (post, commenter) pair whose profile came back non-empty, never more rows than the dict holds pairs |
| MainFlow.VisitRequests | main.py:65 | each commenter costs one to three profile requests |
| MainFlow.VisitPauses | main.py:88 | each commenter adds exactly one 30 to 60 s pause |
| MainFlow.VisitUsersRequests | main.py:63-65 | the commenters of a post cost between one and three requests each |
| MainFlow.VisitUsersPauses | main.py:63-88 | the commenters of a post add one 30 to 60 s pause each |
| MainFlow.VisitPostsRequests | main.py:61-65 | phase 2 makes between one and three requests per (post, commenter) pair |
| MainFlow.VisitPostsPauses | main.py:61-88 | phase 2 pauses exactly once per (post, commenter) pair |
| MainFlow.VisitFlushes | main.py:80-81 | visiting a commenter keeps every written row immediately followed by a flush |
| MainFlow.VisitUsersFlush | main.py:63-81 | over a post's commenters every row is flushed at once |
| MainFlow.VisitPostsFlush | main.py:61-81 | in phase 2 every row is flushed as soon as it is written |
| MainFlow.VisitRows | main.py:72-79 | a commenter's row holds a collected post URL and one of its commenters, and phone, email and link are those extracted from the biography in the row |
| MainFlow.VisitUsersRows | main.py:63-80 | every row written for a post's commenters has that shape |
| MainFlow.VisitPostsRows | main.py:61-80 | every row of phase 2 has that shape |
| Harvest.PostPairs | comment.py:143-144 | every pair of a post carries its URL and the pairs' usernames read back its commenters in order; a failed post contributes nothing |
| Harvest.PostPairsMembers | comment.py:143-144 | a pair comes from a post exactly when it holds the post's URL and one of its commenters |
| Harvest.PairsFromFetchedPosts | comment.py:134-146 | a pair is in `results` exactly when a scrape of its post returned data naming that commenter |
| Harvest.AppendPairs | comment.py:143-144 | the inner loop appends the post URL paired with each username, in order |
| Harvest.CsvRows | comment.py:150-153 | the file holds the header, then two-field rows that read back as the pairs, in order |
| Harvest.CommentMain | comment.py:116-155 | without a network exception the file holds the pairs of every post that returned data, after one request per post; with one, the run stops right after the first request that raised, nothing is written, and the error names that post |
| Harvest.ScrapeAll | comment.py:134-147 | the loop stops at the first post whose request raised, or runs to the end with the trace and results of all posts |
| Harvest.ScrapeAndCollect | comment.py:135-147 | one iteration: it stops when the request raises, and otherwise adds the post's request, pairs and pause |
| PhoneFlow.ReadUsernames | phone2.py:81-96 | the loop collects the names of the records read before the first failure, and never raises |
| PhoneFlow.NamesUpToMembers | phone2.py:91-93 | a name is in the set exactly when a record read has a truthy `comment_username` that strips to it |
| PhoneFlow.NamesStripped | phone2.py:93 | every non-empty name read is stripped |
| PhoneFlow.WhitespaceOnlyAddsEmpty | phone2.py:92-93 | a whitespace-only value passes the truthiness test and adds "" |
| PhoneFlow.NamesMonotone | phone2.py:91-93 | reading more records never loses a name |
| PhoneFlow.PartialRead | phone2.py:94-96 | a read that fails part way gives a subset of what the full read gives |
| PhoneFlow.EnrichFields | phone2.py:133-139 | enrichment sets phone_number, email and link from the profile's own biography and keeps every other field |
| PhoneFlow.EnrichIdempotent | phone2.py:137-139 | a profile already enriched is unchanged by enrichment, and enriching twice is enriching once |
| PhoneFlow.EnrichNonEmpty | phone2.py:132-140 | an enriched profile is non-empty |
| PhoneFlow.NetFetchBounded | phone2.py:32-48 | every `get_user_profile` makes one to three requests and never the 30 to 60 s pause |
| PhoneFlow.CollectUpToStep | phone2.py:129-143 | the loop state after one more username is what the loop body makes of the state before it |
| PhoneFlow.FetchedAccounting | phone2.py:129-131 | after `j` usernames, `j` profiles came back and between `j` and `3j` requests were made |
| PhoneFlow.FetchedPauses | phone2.py:141-143 | after `j` usernames exactly `j` 30 to 60 s pauses occurred |
| PhoneFlow.KeptAllEnriched | phone2.py:132-140 | at most one profile is kept per username, and every kept profile is non-empty and enriched |
| PhoneFlow.KeptAllMembers | phone2.py:132-140 | a profile is kept exactly when a non-empty profile came back, and it is that profile enriched |
| PhoneFlow.FetchAndEnrich | phone2.py:131-143 | one iteration: the fetch, the in-place enrichment and append of a non-empty profile, then the pause |
| PhoneFlow.Project | phone2.py:108-114 | a row holds the profile's value for each of the five columns, "" where it has none |
| PhoneFlow.WriteProfilesToCsv | phone2.py:98-114 | the file holds the header, then one projected row per profile, in order |
| PhoneFlow.ProjectEnriched | phone2.py:107-114 | the row of an enriched profile holds the phone, email and link extracted from the biography in that row |
| PhoneFlow.PhoneMain | phone2.py:116-146 | the run visits every username read, once each in the set's order, and writes the header and one row per kept profile |
| PhoneFlow.PhoneMainProperties | phone2.py:121-145 | the run pauses once per distinct username read, keeps at most one profile per username, and every output row's phone, email and link are extracted from its biography |
| PhoneFlow.DistinctCard | phone2.py:129 | iterating a set visits as many usernames as the set holds |

## Left out

- Selenium: opening pages, scrolling, the manual login wait and `driver.get_cookies()` are not modelled; only the loops over the links and cookies they produce are.
- `get_hashtag_posts` returns `list(set)`: the order of that list is not modelled; the post URLs are an input sequence.
- `httpx` requests, headers, timeouts, `response.json()` and the JSON lookups: every request is an oracle answer, and bodies are abstract (`Unusable`, a missing object, or the object).
- Randomness: the User-Agent choice and the pause durations (`random.uniform(30, 60)`, `2 + random.random() * 2`) are not modelled; a pause is recorded by its kind.
- The GraphQL request body (`json.dumps` and the percent-encoding of `quote`) is not modelled; a post request is recorded by the shortcode it asks for.
- CSV files: reading yields a sequence of records and writing yields a sequence of rows or `RowWritten` events; file opening, encoding and `f.flush()` (a `Flushed` event) are otherwise not modelled.
- `print` logging is left out.
- The `input()` prompts of main.py are left out: the hashtag and `max_posts` are parameters, so a non-numeric `max_posts` (which makes `int()` raise) is not modelled.
- Python's Unicode `\d` and `\s` are parameters (`Bio.CharClasses`), and `str.strip()` takes its whitespace class as a parameter.
- JSON values other than strings: profiles are maps from field names to strings, so a `null` biography (on which the extractors would raise) and non-string fields are not modelled.
- `extract_comment_usernames` on malformed JSON (a list where an object is expected) is not modelled; edges, nodes and owners are objects whose keys may be missing.
- `cookies = None` in phone2.py and the cookie jar passed to each request do not change the oracle's answers and are not modelled.
- The network is indexed by request number rather than by URL or shortcode; within one run each request has its own answer, so this loses nothing for a single run.
