/**
 * Python string operations the scraper relies on: substring search (`in`),
 * `str.split` with a non-empty separator, `str.strip`, and list slicing.
 */
module Text {
  import opened Wrappers

  /** `sub` occurs in `s` starting at index `k`. */
  ghost predicate OccursAt(s: string, sub: string, k: int)
  {
    0 <= k && k + |sub| <= |s| && s[k..k + |sub|] == sub
  }

  /** The first occurrence of `sub` in `s` at or after `from` (Python `s.find(sub, from)`). */
  function IndexOf(s: string, sub: string, from: nat): (r: Option<nat>)
    ensures r.Some? ==> from <= r.value && OccursAt(s, sub, r.value)
    ensures r.Some? ==> forall k :: from <= k < r.value ==> !OccursAt(s, sub, k)
    ensures r.None? ==> forall k :: from <= k ==> !OccursAt(s, sub, k)
    decreases |s| - from
  {
    if from + |sub| > |s| then None
    else if s[from..from + |sub|] == sub then Some(from)
    else IndexOf(s, sub, from + 1)
  }

  /** Python's `sub in s`. */
  predicate Contains(s: string, sub: string)
  {
    IndexOf(s, sub, 0).Some?
  }

  /** Membership of a substring means an occurrence somewhere. */
  lemma ContainsIff(s: string, sub: string)
    ensures Contains(s, sub) <==> exists k :: OccursAt(s, sub, k)
  {
    if exists k :: OccursAt(s, sub, k) {
      var k :| OccursAt(s, sub, k);
      assert 0 <= k;
    }
  }

  /** The characters of an occurrence, one by one. */
  lemma OccursAtChars(s: string, sub: string, k: int)
    ensures OccursAt(s, sub, k) ==> forall i :: 0 <= i < |sub| ==> s[k + i] == sub[i]
  {
    if OccursAt(s, sub, k) {
      var w := s[k..k + |sub|];
      assert forall i :: 0 <= i < |sub| ==> w[i] == s[k + i];
    }
  }

  /** An occurrence with none before it is what `find` reports. */
  lemma IndexOfFirst(s: string, sub: string, k: nat)
    requires OccursAt(s, sub, k)
    requires forall j :: 0 <= j < k ==> !OccursAt(s, sub, j)
    ensures IndexOf(s, sub, 0) == Some(k)
  {
  }

  /** A one-character string occurs exactly where that character does. */
  lemma ContainsChar(s: string, c: char)
    ensures Contains(s, [c]) <==> c in s
  {
    if c in s {
      var k :| 0 <= k < |s| && s[k] == c;
      assert s[k..k + 1] == [c];
      assert OccursAt(s, [c], k);
    }
    var r := IndexOf(s, [c], 0);
    if r.Some? {
      OccursAtChars(s, [c], r.value);
      assert s[r.value] == c;
    }
  }

  /** An occurrence inside a slice is an occurrence in the whole string. */
  lemma OccursInSlice(s: string, sub: string, lo: nat, hi: nat, k: int)
    requires lo <= hi <= |s|
    ensures OccursAt(s[lo..hi], sub, k) ==> OccursAt(s, sub, lo + k)
  {
    if OccursAt(s[lo..hi], sub, k) {
      var w := s[lo..hi];
      assert forall i :: k <= i < k + |sub| ==> w[i] == s[lo + i];
      assert w[k..k + |sub|] == s[lo + k..lo + k + |sub|];
    }
  }

  /**
   * Python's `s.split(sep)` for a non-empty separator: the occurrences are
   * taken left to right without overlapping, and the pieces between them are
   * returned in order.
   */
  function Split(s: string, sep: string): (r: seq<string>)
    requires |sep| > 0
    ensures |r| >= 1
    decreases |s|
  {
    match IndexOf(s, sep, 0)
    case None => [s]
    case Some(k) => [s[..k]] + Split(s[k + |sep|..], sep)
  }

  /** Python's `sep.join(pieces)`. */
  function Join(pieces: seq<string>, sep: string): (r: string)
    requires |pieces| >= 1
  {
    if |pieces| == 1 then pieces[0] else pieces[0] + sep + Join(pieces[1..], sep)
  }

  /** Python's `xs[-1]`. */
  function Last<T>(xs: seq<T>): T
    requires |xs| >= 1
  {
    xs[|xs| - 1]
  }

  /** One step of a split: the piece before the first separator, then the split of the rest. */
  lemma SplitFirst(s: string, sep: string, k: nat)
    requires |sep| > 0 && IndexOf(s, sep, 0) == Some(k)
    ensures k + |sep| <= |s|
    ensures s == s[..k] + sep + s[k + |sep|..]
    ensures Split(s, sep) == [s[..k]] + Split(s[k + |sep|..], sep)
  {
    assert s[k..k + |sep|] == sep;
    assert s == s[..k] + s[k..k + |sep|] + s[k + |sep|..];
  }

  /** Joining the pieces with the separator gives back the string. */
  lemma {:induction false} SplitJoin(s: string, sep: string)
    requires |sep| > 0
    ensures Join(Split(s, sep), sep) == s
    decreases |s|
  {
    match IndexOf(s, sep, 0)
    case None =>
    case Some(k) =>
      SplitFirst(s, sep, k);
      SplitJoin(s[k + |sep|..], sep);
  }

  /** The text before the first separator holds no separator. */
  lemma FirstPieceFree(s: string, sep: string, k: nat)
    requires |sep| > 0 && IndexOf(s, sep, 0) == Some(k)
    ensures !Contains(s[..k], sep)
  {
    forall j: int | 0 <= j
      ensures !OccursAt(s[..k], sep, j)
    {
      OccursInSlice(s, sep, 0, k, j);
      assert s[..k] == s[0..k];
    }
    ContainsIff(s[..k], sep);
  }

  /** No piece of a split contains the separator. */
  lemma {:induction false} SplitPiecesFree(s: string, sep: string)
    requires |sep| > 0
    ensures forall i :: 0 <= i < |Split(s, sep)| ==> !Contains(Split(s, sep)[i], sep)
    decreases |s|
  {
    var r := Split(s, sep);
    match IndexOf(s, sep, 0)
    case None =>
    case Some(k) =>
      var rest := s[k + |sep|..];
      SplitPiecesFree(rest, sep);
      FirstPieceFree(s, sep, k);
      assert r == [s[..k]] + Split(rest, sep);
      assert forall i :: 1 <= i < |r| ==> r[i] == Split(rest, sep)[i - 1];
  }

  /**
   * The first piece of a split runs up to the first separator, or is the
   * whole string when there is none; it never contains the separator.
   */
  lemma SplitHead(s: string, sep: string)
    requires |sep| > 0
    ensures var h := Split(s, sep)[0];
      h <= s && !Contains(h, sep) &&
      (if Contains(s, sep) then OccursAt(s, sep, |h|) && IndexOf(s, sep, 0) == Some(|h|) else h == s)
  {
    SplitPiecesFree(s, sep);
  }

  /** A string splits into more than one piece exactly when it contains the separator. */
  lemma SplitManyIff(s: string, sep: string)
    requires |sep| > 0
    ensures |Split(s, sep)| > 1 <==> Contains(s, sep)
  {
  }

  /** Where the last piece of a split starts: just after the last separator taken. */
  function LastPieceStart(s: string, sep: string): (j: nat)
    requires |sep| > 0
    ensures j <= |s|
    decreases |s|
  {
    match IndexOf(s, sep, 0)
    case None => 0
    case Some(k) => k + |sep| + LastPieceStart(s[k + |sep|..], sep)
  }

  /** Joining several pieces puts the separator between the first ones and the last. */
  lemma {:induction false} JoinLast(pieces: seq<string>, sep: string)
    requires |pieces| > 1
    ensures Join(pieces, sep) == Join(pieces[..|pieces| - 1], sep) + sep + Last(pieces)
    decreases |pieces|
  {
    if |pieces| > 2 {
      JoinLast(pieces[1..], sep);
      assert pieces[1..][..|pieces| - 2] == pieces[..|pieces| - 1][1..];
    }
  }

  /** When `s` is `x + sep + s[j..]`, the separator ends at `j`. */
  lemma SepEndsAt(s: string, x: string, sep: string, j: nat)
    requires j <= |s| && s == x + sep + s[j..]
    ensures |sep| <= j && s[j - |sep|..j] == sep
  {
    assert |x| + |sep| == j;
    assert s[j - |sep|..j] == (x + sep + s[j..])[|x|..|x| + |sep|];
  }

  /** The last piece starts at 0, or right after an occurrence of the separator. */
  lemma LastPieceAfterSep(s: string, sep: string)
    requires |sep| > 0
    ensures var j := LastPieceStart(s, sep);
      j == 0 || (|sep| <= j && s[j - |sep|..j] == sep)
  {
    var pieces, j := Split(s, sep), LastPieceStart(s, sep);
    LastPieceWhole(s, sep);
    SplitManyIff(s, sep);
    if j > 0 {
      SplitJoin(s, sep);
      LastPieceIsSuffix(s, sep);
      JoinLast(pieces, sep);
      SepEndsAt(s, Join(pieces[..|pieces| - 1], sep), sep, j);
    }
  }

  /** The last piece starts at 0 exactly when there is no separator at all. */
  lemma LastPieceWhole(s: string, sep: string)
    requires |sep| > 0
    ensures LastPieceStart(s, sep) == 0 <==> !Contains(s, sep)
  {
  }

  /** After the first separator, the last piece is the last piece of the rest. */
  lemma LastPieceStep(s: string, sep: string, k: nat)
    requires |sep| > 0 && IndexOf(s, sep, 0) == Some(k)
    ensures Last(Split(s, sep)) == Last(Split(s[k + |sep|..], sep))
  {
    var pieces := Split(s[k + |sep|..], sep);
    var whole := Split(s, sep);
    assert whole == [s[..k]] + pieces;
    assert whole[|whole| - 1] == pieces[|pieces| - 1];
  }

  /** The last piece of a split is the suffix after the last separator taken. */
  lemma {:induction false} LastPieceIsSuffix(s: string, sep: string)
    requires |sep| > 0
    ensures Last(Split(s, sep)) == s[LastPieceStart(s, sep)..]
    decreases |s|
  {
    match IndexOf(s, sep, 0)
    case None =>
    case Some(k) =>
      LastPieceStep(s, sep, k);
      var rest := s[k + |sep|..];
      LastPieceIsSuffix(rest, sep);
      var j' := LastPieceStart(rest, sep);
      assert rest[j'..] == s[k + |sep| + j'..];
  }

  /** Python's `str.strip()`, with the whitespace class left as a parameter. */
  function Strip(s: string, isSpace: char -> bool): (r: string)
    ensures |r| <= |s|
    ensures exists lo, hi ::
      0 <= lo <= hi <= |s| && r == s[lo..hi] &&
      (forall k :: 0 <= k < lo ==> isSpace(s[k])) &&
      (forall k :: hi <= k < |s| ==> isSpace(s[k]))
    ensures r != [] ==> !isSpace(r[0]) && !isSpace(r[|r| - 1])
    ensures r == [] <==> forall k :: 0 <= k < |s| ==> isSpace(s[k])
  {
    var lo := StripStart(s, isSpace, 0);
    var hi := StripEnd(s, isSpace, lo, |s|);
    s[lo..hi]
  }

  /** The first index at or after `i` that is not whitespace, or `|s|`. */
  function StripStart(s: string, isSpace: char -> bool, i: nat): (lo: nat)
    requires i <= |s|
    ensures i <= lo <= |s|
    ensures forall k :: i <= k < lo ==> isSpace(s[k])
    ensures lo < |s| ==> !isSpace(s[lo])
    decreases |s| - i
  {
    if i < |s| && isSpace(s[i]) then StripStart(s, isSpace, i + 1) else i
  }

  /** One past the last index below `j` and at or after `lo` that is not whitespace, or `lo`. */
  function StripEnd(s: string, isSpace: char -> bool, lo: nat, j: nat): (hi: nat)
    requires lo <= j <= |s|
    ensures lo <= hi <= j
    ensures forall k :: hi <= k < j ==> isSpace(s[k])
    ensures hi > lo ==> !isSpace(s[hi - 1])
    decreases j
  {
    if j > lo && isSpace(s[j - 1]) then StripEnd(s, isSpace, lo, j - 1) else j
  }

  /**
   * Python's `xs[:n]`: a non-negative `n` keeps the first `n` items (all of
   * them when `n` is larger), a negative `n` drops `-n` items from the end.
   */
  function SlicePrefix<T>(xs: seq<T>, n: int): (r: seq<T>)
    ensures r <= xs
    ensures 0 <= n ==> |r| == if n < |xs| then n else |xs|
    ensures n < 0 ==> |r| == if |xs| + n > 0 then |xs| + n else 0
  {
    if 0 <= n then (if n < |xs| then xs[..n] else xs)
    else if |xs| + n > 0 then xs[..|xs| + n]
    else []
  }
}
