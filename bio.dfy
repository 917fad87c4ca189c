/**
 * The three biography extractors. Each is `re.findall(pattern, bio)[0]` or "",
 * i.e. the match Python's backtracking engine finds at the leftmost start
 * position that admits one.
 *
 *   phone  `\+?\d[\d\s\-]{8,}\d`
 *   email  `[A-Za-z0-9._%+-]+@[A-Za-z0-9.-]+\.[A-Za-z]{2,}`
 *   link   `https?://[^\s]+`
 *
 * For these three patterns the engine's match at a start position is the
 * longest string of the pattern's language starting there (the greedy
 * quantifiers consume maximal runs and every backtracking step shortens the
 * match), so the model specifies "leftmost, then longest" declaratively and
 * proves that executable matchers, written the way the engine proceeds, meet it.
 */
module Bio {
  import opened Wrappers

  /** Python's Unicode-aware `\d` and `\s` classes, left uninterpreted. */
  datatype CharClasses = CharClasses(digit: char -> bool, space: char -> bool)

  datatype Pattern = Phone | Email | Link

  // ---------------------------------------------------------------------
  // Character classes
  // ---------------------------------------------------------------------

  /** `[\d\s\-]` */
  predicate PhoneChar(cc: CharClasses, c: char)
  {
    cc.digit(c) || cc.space(c) || c == '-'
  }

  predicate AsciiLetter(c: char)
  {
    'A' <= c <= 'Z' || 'a' <= c <= 'z'
  }

  predicate AsciiAlnum(c: char)
  {
    AsciiLetter(c) || '0' <= c <= '9'
  }

  /** `[A-Za-z0-9._%+-]` */
  predicate LocalChar(c: char)
  {
    AsciiAlnum(c) || c == '.' || c == '_' || c == '%' || c == '+' || c == '-'
  }

  /** `[A-Za-z0-9.-]` */
  predicate DomainChar(c: char)
  {
    AsciiAlnum(c) || c == '.' || c == '-'
  }

  // ---------------------------------------------------------------------
  // The languages of the three patterns
  // ---------------------------------------------------------------------

  /** `\d[\d\s\-]{8,}\d`: a digit, at least eight class characters, a digit. */
  ghost predicate PhoneBody(cc: CharClasses, w: string)
  {
    |w| >= 10 && cc.digit(w[0]) && cc.digit(w[|w| - 1]) &&
    forall k :: 1 <= k < |w| - 1 ==> PhoneChar(cc, w[k])
  }

  /** `\+?\d[\d\s\-]{8,}\d` */
  ghost predicate PhoneShape(cc: CharClasses, w: string)
  {
    PhoneBody(cc, w) || (|w| > 0 && w[0] == '+' && PhoneBody(cc, w[1..]))
  }

  /** `w` splits as local part `w[..a]`, `@`, domain `w[a+1..d]`, `.`, top-level label `w[d+1..]`. */
  ghost predicate EmailParts(w: string, a: int, d: int)
  {
    0 < a && a + 1 < d && d + 3 <= |w| &&
    (forall k :: 0 <= k < a ==> LocalChar(w[k])) && w[a] == '@' &&
    (forall k :: a < k < d ==> DomainChar(w[k])) && w[d] == '.' &&
    (forall k :: d < k < |w| ==> AsciiLetter(w[k]))
  }

  /** `[A-Za-z0-9._%+-]+@[A-Za-z0-9.-]+\.[A-Za-z]{2,}` */
  ghost predicate EmailShape(w: string)
  {
    exists a, d :: EmailParts(w, a, d)
  }

  /** `w` is `scheme` followed by at least one non-whitespace character and nothing else. */
  ghost predicate SchemeThenWord(cc: CharClasses, w: string, scheme: string)
  {
    |w| > |scheme| && w[..|scheme|] == scheme &&
    forall k :: |scheme| <= k < |w| ==> !cc.space(w[k])
  }

  /** `https?://[^\s]+` */
  ghost predicate LinkShape(cc: CharClasses, w: string)
  {
    SchemeThenWord(cc, w, "https://") || SchemeThenWord(cc, w, "http://")
  }

  ghost predicate Matches(p: Pattern, cc: CharClasses, w: string)
  {
    match p
    case Phone => PhoneShape(cc, w)
    case Email => EmailShape(w)
    case Link => LinkShape(cc, w)
  }

  /** No substring of `s` starting at `i` is in the pattern's language. */
  ghost predicate NoMatchAt(p: Pattern, cc: CharClasses, s: string, i: int)
    requires 0 <= i <= |s|
  {
    forall j :: i < j <= |s| ==> !Matches(p, cc, s[i..j])
  }

  /** `s[i..j]` is the match `findall` reports first: leftmost start, then longest. */
  ghost predicate FirstMatch(p: Pattern, cc: CharClasses, s: string, i: int, j: int)
  {
    0 <= i < j <= |s| && Matches(p, cc, s[i..j]) &&
    (forall i' :: 0 <= i' < i ==> NoMatchAt(p, cc, s, i')) &&
    (forall j' :: j < j' <= |s| ==> !Matches(p, cc, s[i..j']))
  }

  ghost predicate NoMatch(p: Pattern, cc: CharClasses, s: string)
  {
    forall i :: 0 <= i <= |s| ==> NoMatchAt(p, cc, s, i)
  }

  // ---------------------------------------------------------------------
  // Scanning helpers
  // ---------------------------------------------------------------------

  /** End of the maximal run of `inClass` characters starting at `i`. */
  function RunEnd(s: string, i: nat, inClass: char -> bool): (e: nat)
    requires i <= |s|
    ensures i <= e <= |s|
    ensures forall k :: i <= k < e ==> inClass(s[k])
    ensures e < |s| ==> !inClass(s[e])
    decreases |s| - i
  {
    if i < |s| && inClass(s[i]) then RunEnd(s, i + 1, inClass) else i
  }

  /** The last index in `[lo, hi)` whose character satisfies `pred`. */
  function LastWhere(s: string, lo: nat, hi: nat, pred: char -> bool): (r: Option<nat>)
    requires hi <= |s|
    ensures r.Some? ==> lo <= r.value < hi && pred(s[r.value])
    ensures r.Some? ==> forall k :: r.value < k < hi ==> !pred(s[k])
    ensures r.None? ==> forall k :: lo <= k < hi ==> !pred(s[k])
    decreases hi
  {
    if hi <= lo then None
    else if pred(s[hi - 1]) then Some(hi - 1)
    else LastWhere(s, lo, hi - 1, pred)
  }

  // ---------------------------------------------------------------------
  // The engine, pattern by pattern
  // ---------------------------------------------------------------------

  /**
   * `\d[\d\s\-]{8,}\d` at `p`: the class run after the first digit is taken
   * whole and given back one character at a time until a digit closes the
   * match, so the match ends at the run's last digit, if that leaves eight
   * characters in between.
   */
  function PhoneBodyAt(cc: CharClasses, s: string, p: nat): (r: Option<nat>)
    requires p <= |s|
  {
    if p < |s| && cc.digit(s[p]) then
      var e := RunEnd(s, p + 1, c => PhoneChar(cc, c));
      match LastWhere(s, p + 1, e, cc.digit)
      case Some(q) => if q >= p + 9 then Some(q + 1) else None
      case None => None
    else None
  }

  /** `\+?` is tried with the plus first, then without. */
  function PhoneAt(cc: CharClasses, s: string, i: nat): (r: Option<nat>)
    requires i <= |s|
  {
    if i < |s| && s[i] == '+' && PhoneBodyAt(cc, s, i + 1).Some? then PhoneBodyAt(cc, s, i + 1)
    else PhoneBodyAt(cc, s, i)
  }

  /** `s[k]` is a `.` followed by at least two ASCII letters. */
  predicate TldDotAt(s: string, k: nat)
    requires k < |s|
  {
    s[k] == '.' && RunEnd(s, k + 1, AsciiLetter) >= k + 3
  }

  /** The last index in `[lo, hi)` holding a `.` followed by at least two ASCII letters. */
  function LastTldDot(s: string, lo: nat, hi: nat): (r: Option<nat>)
    requires hi <= |s|
    ensures r.Some? ==> lo <= r.value < hi && TldDotAt(s, r.value)
    ensures r.Some? ==> forall k :: r.value < k < hi ==> !TldDotAt(s, k)
    ensures r.None? ==> forall k :: lo <= k < hi ==> !TldDotAt(s, k)
    decreases hi
  {
    if hi <= lo then None
    else if TldDotAt(s, hi - 1) then Some(hi - 1)
    else LastTldDot(s, lo, hi - 1)
  }

  /**
   * The email pattern at `i`: the local run must stop at `@`; the domain run
   * is given back until a `.` followed by two or more letters is found; the
   * top-level label then takes every letter it can.
   */
  function EmailAt(s: string, i: nat): (r: Option<nat>)
    requires i <= |s|
  {
    var a := RunEnd(s, i, LocalChar);
    if a == i || a >= |s| || s[a] != '@' then None
    else
      var e := RunEnd(s, a + 1, DomainChar);
      match LastTldDot(s, a + 2, e)
      case Some(d) => Some(RunEnd(s, d + 1, AsciiLetter))
      case None => None
  }

  predicate StartsWithAt(s: string, i: nat, prefix: string)
  {
    i + |prefix| <= |s| && s[i..i + |prefix|] == prefix
  }

  /** `https?://` with the `s` tried first, then the maximal non-space run. */
  function LinkAt(cc: CharClasses, s: string, i: nat): (r: Option<nat>)
    requires i <= |s|
  {
    if StartsWithAt(s, i, "https://") && i + 8 < |s| && !cc.space(s[i + 8]) then
      Some(RunEnd(s, i + 8, c => !cc.space(c)))
    else if StartsWithAt(s, i, "http://") && i + 7 < |s| && !cc.space(s[i + 7]) then
      Some(RunEnd(s, i + 7, c => !cc.space(c)))
    else None
  }

  function MatchAt(p: Pattern, cc: CharClasses, s: string, i: nat): (r: Option<nat>)
    requires i <= |s|
  {
    match p
    case Phone => PhoneAt(cc, s, i)
    case Email => EmailAt(s, i)
    case Link => LinkAt(cc, s, i)
  }

  // ---------------------------------------------------------------------
  // The engine meets the declarative specification
  // ---------------------------------------------------------------------

  /** Any phone body starting at `p` ends on a digit inside the class run after its first digit. */
  lemma PhoneBodyInsideRun(cc: CharClasses, s: string, p: nat, j: nat)
    requires p < j <= |s|
    ensures PhoneBody(cc, s[p..j]) ==>
      cc.digit(s[p]) && cc.digit(s[j - 1]) && j >= p + 10 &&
      j - 1 < RunEnd(s, p + 1, c => PhoneChar(cc, c))
  {
    var w := s[p..j];
    assert forall k :: 0 <= k < |w| ==> w[k] == s[p + k];
    if PhoneBody(cc, w) {
      assert forall k :: p + 1 <= k < j - 1 ==> PhoneChar(cc, s[k]);
      assert PhoneChar(cc, s[j - 1]);
    }
  }

  lemma PhoneBodyAtCorrect(cc: CharClasses, s: string, p: nat)
    requires p <= |s|
    ensures PhoneBodyAt(cc, s, p).Some? ==>
      var j := PhoneBodyAt(cc, s, p).value;
      p < j <= |s| && PhoneBody(cc, s[p..j]) &&
      forall j' :: j < j' <= |s| ==> !PhoneBody(cc, s[p..j'])
    ensures PhoneBodyAt(cc, s, p).None? ==> forall j :: p < j <= |s| ==> !PhoneBody(cc, s[p..j])
  {
    forall j | p < j <= |s|
      ensures PhoneBody(cc, s[p..j]) ==>
        cc.digit(s[p]) && cc.digit(s[j - 1]) && j >= p + 10 &&
        j - 1 < RunEnd(s, p + 1, c => PhoneChar(cc, c))
    {
      PhoneBodyInsideRun(cc, s, p, j);
    }
    if p < |s| && cc.digit(s[p]) {
      var e := RunEnd(s, p + 1, c => PhoneChar(cc, c));
      var last := LastWhere(s, p + 1, e, cc.digit);
      if last.Some? && last.value >= p + 9 {
        var w := s[p..last.value + 1];
        assert forall k :: 0 <= k < |w| ==> w[k] == s[p + k];
        assert PhoneBody(cc, w);
      }
    }
  }

  lemma PhoneAtCorrect(cc: CharClasses, s: string, i: nat)
    requires i <= |s|
    ensures PhoneAt(cc, s, i).Some? ==>
      var j := PhoneAt(cc, s, i).value;
      i < j <= |s| && PhoneShape(cc, s[i..j]) &&
      forall j' :: j < j' <= |s| ==> !PhoneShape(cc, s[i..j'])
    ensures PhoneAt(cc, s, i).None? ==> forall j :: i < j <= |s| ==> !PhoneShape(cc, s[i..j])
  {
    PhoneBodyAtCorrect(cc, s, i);
    if i < |s| {
      PhoneBodyAtCorrect(cc, s, i + 1);
      forall j | i < j <= |s| ensures s[i..j][1..] == s[i + 1..j] && s[i..j][0] == s[i] { }
    }
    if i < |s| && s[i] == '+' && PhoneBodyAt(cc, s, i + 1).Some? {
      var j := PhoneBodyAt(cc, s, i + 1).value;
      PhoneBodyInsideRun(cc, s, i + 1, j);
      forall j' | j < j' <= |s| {
        DropLeadingDigit(cc, s, i, j');
      }
    }
  }

  /** Without the plus, a `+` read as the first digit leaves a body one shorter behind it. */
  lemma DropLeadingDigit(cc: CharClasses, s: string, i: nat, j: nat)
    requires i + 11 < j <= |s| && cc.digit(s[i + 1])
    ensures PhoneBody(cc, s[i..j]) ==> PhoneBody(cc, s[i + 1..j])
  {
    var w := s[i..j];
    var v := s[i + 1..j];
    assert forall k :: 0 <= k < |v| ==> v[k] == w[k + 1];
  }

  /** A match of the email pattern is anchored where the engine looks. */
  lemma EmailPartsAnchored(s: string, i: nat, j: nat, a: int, d: int)
    requires i < j <= |s| && EmailParts(s[i..j], a, d)
    ensures i + a == RunEnd(s, i, LocalChar) && s[i + a] == '@'
    ensures s[i + d] == '.' && i + d < RunEnd(s, i + a + 1, DomainChar)
    ensures RunEnd(s, i + d + 1, AsciiLetter) >= j && TldDotAt(s, i + d)
    ensures forall k :: i + d < k < j ==> AsciiLetter(s[k])
  {
    var w := s[i..j];
    assert forall k :: 0 <= k < |w| ==> w[k] == s[i + k];
    assert forall k :: i <= k < i + a ==> LocalChar(s[k]);
    assert forall k :: i + a < k <= i + d ==> DomainChar(s[k]);
    assert forall k :: i + d < k < j ==> AsciiLetter(s[k]);
  }

  /** The split the engine finds is a witness of the email language. */
  lemma EmailEngineWitness(s: string, i: nat, a: nat, e: nat, d: nat, j: nat)
    requires i < a < |s| && a == RunEnd(s, i, LocalChar) && s[a] == '@'
    requires a + 1 <= |s| && e == RunEnd(s, a + 1, DomainChar)
    requires a + 2 <= d < e && s[d] == '.'
    requires d + 3 <= j && j == RunEnd(s, d + 1, AsciiLetter)
    ensures EmailParts(s[i..j], a - i, d - i)
  {
    var w := s[i..j];
    assert forall k :: 0 <= k < |w| ==> w[k] == s[i + k];
  }

  /** No email match from `i` reaches beyond the one the engine finds. */
  lemma EmailEngineLongest(s: string, i: nat, a: nat, e: nat, d: nat, j: nat, j': nat)
    requires i < a < |s| && a == RunEnd(s, i, LocalChar)
    requires a + 1 <= |s| && e == RunEnd(s, a + 1, DomainChar)
    requires d < e && s[d] == '.'
    requires forall k :: d < k < e ==> !TldDotAt(s, k)
    requires j == RunEnd(s, d + 1, AsciiLetter)
    requires i < j < j' <= |s|
    ensures !EmailShape(s[i..j'])
  {
    if EmailShape(s[i..j']) {
      var a', d' :| EmailParts(s[i..j'], a', d');
      EmailPartsAnchored(s, i, j', a', d');
    }
  }

  lemma EmailAtFound(s: string, i: nat)
    requires i <= |s| && EmailAt(s, i).Some?
    ensures
      var j := EmailAt(s, i).value;
      i < j <= |s| && EmailShape(s[i..j]) &&
      forall j' :: j < j' <= |s| ==> !EmailShape(s[i..j'])
  {
    var a := RunEnd(s, i, LocalChar);
    var e := RunEnd(s, a + 1, DomainChar);
    var d := LastTldDot(s, a + 2, e).value;
    var j := RunEnd(s, d + 1, AsciiLetter);
    EmailEngineWitness(s, i, a, e, d, j);
    forall j' | j < j' <= |s| ensures !EmailShape(s[i..j']) {
      EmailEngineLongest(s, i, a, e, d, j, j');
    }
  }

  lemma EmailAtNotFound(s: string, i: nat)
    requires i <= |s| && EmailAt(s, i).None?
    ensures forall j :: i < j <= |s| ==> !EmailShape(s[i..j])
  {
    forall j | i < j <= |s| ensures !EmailShape(s[i..j]) {
      if EmailShape(s[i..j]) {
        var a', d' :| EmailParts(s[i..j], a', d');
        EmailPartsAnchored(s, i, j, a', d');
      }
    }
  }

  lemma EmailAtCorrect(s: string, i: nat)
    requires i <= |s|
    ensures EmailAt(s, i).Some? ==>
      var j := EmailAt(s, i).value;
      i < j <= |s| && EmailShape(s[i..j]) &&
      forall j' :: j < j' <= |s| ==> !EmailShape(s[i..j'])
    ensures EmailAt(s, i).None? ==> forall j :: i < j <= |s| ==> !EmailShape(s[i..j])
  {
    if EmailAt(s, i).Some? {
      EmailAtFound(s, i);
    } else {
      EmailAtNotFound(s, i);
    }
  }

  /** A link match is its scheme at `i` followed by non-space characters up to `j`. */
  lemma SchemeThenWordAt(cc: CharClasses, s: string, i: nat, j: nat, scheme: string)
    requires i < j <= |s|
    ensures SchemeThenWord(cc, s[i..j], scheme) <==>
      StartsWithAt(s, i, scheme) && i + |scheme| < j &&
      forall k :: i + |scheme| <= k < j ==> !cc.space(s[k])
  {
    var w := s[i..j];
    assert forall k :: 0 <= k < |w| ==> w[k] == s[i + k];
    if |w| > |scheme| {
      assert w[..|scheme|] == s[i..i + |scheme|];
    }
  }

  lemma LinkAtCorrect(cc: CharClasses, s: string, i: nat)
    requires i <= |s|
    ensures LinkAt(cc, s, i).Some? ==>
      var j := LinkAt(cc, s, i).value;
      i < j <= |s| && LinkShape(cc, s[i..j]) &&
      forall j' :: j < j' <= |s| ==> !LinkShape(cc, s[i..j'])
    ensures LinkAt(cc, s, i).None? ==> forall j :: i < j <= |s| ==> !LinkShape(cc, s[i..j])
  {
    forall j | i < j <= |s|
      ensures SchemeThenWord(cc, s[i..j], "https://") <==>
        StartsWithAt(s, i, "https://") && i + 8 < j && forall k :: i + 8 <= k < j ==> !cc.space(s[k])
      ensures SchemeThenWord(cc, s[i..j], "http://") <==>
        StartsWithAt(s, i, "http://") && i + 7 < j && forall k :: i + 7 <= k < j ==> !cc.space(s[k])
    {
      SchemeThenWordAt(cc, s, i, j, "https://");
      SchemeThenWordAt(cc, s, i, j, "http://");
    }
    // "https://" and "http://" differ at their fifth character.
    assert StartsWithAt(s, i, "https://") ==> s[i + 4] == 's';
    assert StartsWithAt(s, i, "http://") ==> s[i + 4] == ':';
  }

  lemma MatchAtCorrect(p: Pattern, cc: CharClasses, s: string, i: nat)
    requires i <= |s|
    ensures MatchAt(p, cc, s, i).Some? ==>
      var j := MatchAt(p, cc, s, i).value;
      i < j <= |s| && Matches(p, cc, s[i..j]) &&
      forall j' :: j < j' <= |s| ==> !Matches(p, cc, s[i..j'])
    ensures MatchAt(p, cc, s, i).None? ==> NoMatchAt(p, cc, s, i)
  {
    match p
    case Phone => PhoneAtCorrect(cc, s, i);
    case Email => EmailAtCorrect(s, i);
    case Link => LinkAtCorrect(cc, s, i);
  }

  // ---------------------------------------------------------------------
  // findall(...)[0]: the leftmost start that admits a match
  // ---------------------------------------------------------------------

  /** The first start at or after `i` where the engine matches, with the match's end. */
  function FindFirst(p: Pattern, cc: CharClasses, s: string, i: nat): (r: Option<(nat, nat)>)
    requires i <= |s|
    ensures r.Some? ==> i <= r.value.0 < r.value.1 <= |s|
    decreases |s| - i
  {
    if i == |s| then None
    else match MatchAt(p, cc, s, i)
      case Some(j) => Some((i, j))
      case None => FindFirst(p, cc, s, i + 1)
  }

  /**
   * The scan finds the leftmost start that admits a match, and there the
   * longest match; when it finds nothing, no start admits one.
   */
  lemma {:induction false} FindFirstCorrect(p: Pattern, cc: CharClasses, s: string, i: nat)
    requires i <= |s|
    ensures var r := FindFirst(p, cc, s, i);
      (r.Some? ==> Matches(p, cc, s[r.value.0..r.value.1])) &&
      (r.Some? ==> forall j' :: r.value.1 < j' <= |s| ==> !Matches(p, cc, s[r.value.0..j'])) &&
      (r.Some? ==> forall i' :: i <= i' < r.value.0 ==> NoMatchAt(p, cc, s, i')) &&
      (r.None? ==> forall i' :: i <= i' <= |s| ==> NoMatchAt(p, cc, s, i'))
    decreases |s| - i
  {
    MatchAtCorrect(p, cc, s, i);
    if i < |s| && MatchAt(p, cc, s, i).None? {
      FindFirstCorrect(p, cc, s, i + 1);
    }
  }

  /** `findall(pattern, bio)[0] if matches else ""`. */
  function Extract(p: Pattern, cc: CharClasses, bio: string): (r: string)
  {
    match FindFirst(p, cc, bio, 0)
    case None => ""
    case Some((i, j)) => bio[i..j]
  }

  /**
   * The extractor returns "" exactly when no substring matches, and
   * otherwise the leftmost, then longest, match.
   */
  lemma ExtractCorrect(p: Pattern, cc: CharClasses, bio: string)
    ensures Extract(p, cc, bio) == "" <==> NoMatch(p, cc, bio)
    ensures Extract(p, cc, bio) != "" ==>
      exists i, j :: FirstMatch(p, cc, bio, i, j) && Extract(p, cc, bio) == bio[i..j]
  {
    FindFirstCorrect(p, cc, bio, 0);
    match FindFirst(p, cc, bio, 0)
    case None =>
    case Some((i, j)) =>
      assert FirstMatch(p, cc, bio, i, j);
      assert !NoMatchAt(p, cc, bio, i);
  }

  /** `extract_phone_from_bio` */
  function ExtractPhone(cc: CharClasses, bio: string): string
  {
    Extract(Phone, cc, bio)
  }

  /** `extract_email_from_bio` (the email pattern uses no `\d` or `\s`). */
  function ExtractEmail(cc: CharClasses, bio: string): string
  {
    Extract(Email, cc, bio)
  }

  /** `extract_link_from_bio` */
  function ExtractLink(cc: CharClasses, bio: string): string
  {
    Extract(Link, cc, bio)
  }

  /** The phone number is "" when the biography has none, else its leftmost, longest phone-shaped substring. */
  lemma PhoneLeftmostLongest(cc: CharClasses, bio: string)
    ensures ExtractPhone(cc, bio) == "" <==> NoMatch(Phone, cc, bio)
    ensures ExtractPhone(cc, bio) != "" ==>
      exists i, j :: FirstMatch(Phone, cc, bio, i, j) && ExtractPhone(cc, bio) == bio[i..j]
  {
    ExtractCorrect(Phone, cc, bio);
  }

  /** The email is "" when the biography has none, else its leftmost, longest email-shaped substring. */
  lemma EmailLeftmostLongest(cc: CharClasses, bio: string)
    ensures ExtractEmail(cc, bio) == "" <==> NoMatch(Email, cc, bio)
    ensures ExtractEmail(cc, bio) != "" ==>
      exists i, j :: FirstMatch(Email, cc, bio, i, j) && ExtractEmail(cc, bio) == bio[i..j]
  {
    ExtractCorrect(Email, cc, bio);
  }

  /** The link is "" when the biography has none, else its leftmost, longest link-shaped substring. */
  lemma LinkLeftmostLongest(cc: CharClasses, bio: string)
    ensures ExtractLink(cc, bio) == "" <==> NoMatch(Link, cc, bio)
    ensures ExtractLink(cc, bio) != "" ==>
      exists i, j :: FirstMatch(Link, cc, bio, i, j) && ExtractLink(cc, bio) == bio[i..j]
  {
    ExtractCorrect(Link, cc, bio);
  }

  // ---------------------------------------------------------------------
  // What greediness means for each pattern
  // ---------------------------------------------------------------------

  /** A phone match followed by more class characters and a digit can be extended. */
  lemma ExtendPhone(cc: CharClasses, s: string, i: nat, j: nat, k: nat)
    requires i < j <= k < |s| && PhoneShape(cc, s[i..j])
    requires forall m :: j <= m < k ==> PhoneChar(cc, s[m])
    requires cc.digit(s[k])
    ensures Matches(Phone, cc, s[i..k + 1])
  {
    var w := s[i..j];
    var w' := s[i..k + 1];
    assert forall m :: 0 <= m < |w| ==> w[m] == s[i + m];
    assert forall m :: 0 <= m < |w'| ==> w'[m] == s[i + m];
    assert PhoneChar(cc, s[j - 1]);
    if PhoneBody(cc, w) {
      assert PhoneBody(cc, w');
    } else {
      assert w[1..] == s[i + 1..j] && w'[1..] == s[i + 1..k + 1];
      assert PhoneBody(cc, s[i + 1..k + 1]);
    }
  }

  /**
   * Greediness of `[\d\s\-]{8,}`: the phone number found ends on a digit, and
   * every class character after it, up to the end of the maximal run, is a
   * space or a hyphen.
   */
  lemma {:induction false} PhoneEndsAtLastDigitOfRun(cc: CharClasses, s: string, i: nat, j: nat)
    requires FirstMatch(Phone, cc, s, i, j)
    ensures cc.digit(s[j - 1])
    ensures forall k :: j <= k < RunEnd(s, j, c => PhoneChar(cc, c)) ==> !cc.digit(s[k])
  {
    var w := s[i..j];
    assert w[|w| - 1] == s[j - 1];
    if PhoneBody(cc, w) {
      assert cc.digit(w[|w| - 1]);
    } else {
      assert w[1..][|w[1..]| - 1] == s[j - 1];
    }
    var e := RunEnd(s, j, c => PhoneChar(cc, c));
    forall k | j <= k < e ensures !cc.digit(s[k]) {
      if cc.digit(s[k]) {
        ExtendPhone(cc, s, i, j, k);
      }
    }
  }

  /** An email match followed by more domain characters and another `.tld` can be extended. */
  lemma ExtendEmail(cc: CharClasses, s: string, i: nat, j: nat, k: nat)
    requires i < j <= k < |s| && EmailShape(s[i..j])
    requires forall m :: j <= m < k ==> DomainChar(s[m])
    requires TldDotAt(s, k)
    ensures Matches(Email, cc, s[i..RunEnd(s, k + 1, AsciiLetter)])
  {
    var a, d :| EmailParts(s[i..j], a, d);
    EmailPartsAnchored(s, i, j, a, d);
    var t := RunEnd(s, k + 1, AsciiLetter);
    var w := s[i..t];
    assert forall m :: 0 <= m < |w| ==> w[m] == s[i + m];
    assert forall m :: i + a < m < j ==> DomainChar(s[m]);
    assert EmailParts(w, a, k - i);
  }

  /**
   * Backtracking of `[A-Za-z0-9.-]+\.`: after the email found, no `.` followed
   * by two letters remains in the domain run, so no longer domain would do;
   * and the top-level label took every letter it could.
   */
  lemma {:induction false} EmailDomainIsLongest(cc: CharClasses, s: string, i: nat, j: nat)
    requires FirstMatch(Email, cc, s, i, j)
    ensures j == |s| || !AsciiLetter(s[j])
    ensures forall k :: j <= k < RunEnd(s, j, DomainChar) ==> !TldDotAt(s, k)
  {
    var e := RunEnd(s, j, DomainChar);
    forall k | j <= k < e ensures !TldDotAt(s, k) {
      if TldDotAt(s, k) {
        ExtendEmail(cc, s, i, j, k);
      }
    }
    if j < |s| && AsciiLetter(s[j]) {
      ExtendTld(cc, s, i, j);
    }
  }

  /** An email match followed by one more letter can be extended. */
  lemma ExtendTld(cc: CharClasses, s: string, i: nat, j: nat)
    requires i < j < |s| && EmailShape(s[i..j]) && AsciiLetter(s[j])
    ensures Matches(Email, cc, s[i..j + 1])
  {
    var a, d :| EmailParts(s[i..j], a, d);
    var w := s[i..j + 1];
    assert forall m :: 0 <= m < |w| ==> w[m] == (if m < j - i then s[i..j][m] else s[j]);
    assert EmailParts(w, a, d);
  }

  /** `[^\s]+` is greedy: the link found ends at whitespace or at the end of the biography. */
  lemma {:induction false} LinkEndsAtSpace(cc: CharClasses, s: string, i: nat, j: nat)
    requires FirstMatch(Link, cc, s, i, j)
    ensures j == |s| || cc.space(s[j])
  {
    SchemeThenWordAt(cc, s, i, j, "https://");
    SchemeThenWordAt(cc, s, i, j, "http://");
    if j < |s| && !cc.space(s[j]) {
      ExtendLink(cc, s, i, j);
    }
  }

  /** A link match followed by one more non-space character can be extended. */
  lemma ExtendLink(cc: CharClasses, s: string, i: nat, j: nat)
    requires i < j < |s| && LinkShape(cc, s[i..j]) && !cc.space(s[j])
    ensures Matches(Link, cc, s[i..j + 1])
  {
    SchemeThenWordAt(cc, s, i, j, "https://");
    SchemeThenWordAt(cc, s, i, j, "http://");
    SchemeThenWordAt(cc, s, i, j + 1, "https://");
    SchemeThenWordAt(cc, s, i, j + 1, "http://");
  }
}
