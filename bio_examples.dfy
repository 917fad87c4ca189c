/**
 * Worked examples of the three extractors on sample biographies. Each holds
 * for every classification of `\d` and `\s` that agrees with Python's on the
 * sample's characters (ASCII digits are digits, the blank is whitespace, no
 * other character of the sample is either).
 */
module BioExamples {
  import opened Wrappers
  import opened Bio

  ghost predicate PythonOnSample(cc: CharClasses, s: string)
  {
    forall k :: 0 <= k < |s| ==>
      (cc.digit(s[k]) <==> '0' <= s[k] <= '9') && (cc.space(s[k]) <==> s[k] == ' ')
  }

  lemma RunStep(s: string, i: nat, f: char -> bool)
    requires i < |s| && f(s[i])
    ensures RunEnd(s, i, f) == RunEnd(s, i + 1, f)
  {
  }

  lemma ScanStep(p: Pattern, cc: CharClasses, s: string, i: nat)
    requires i < |s| && MatchAt(p, cc, s, i).None?
    ensures FindFirst(p, cc, s, i) == FindFirst(p, cc, s, i + 1)
  {
  }

  // --- phone -------------------------------------------------------------

  lemma PhoneRun(cc: CharClasses, s: string)
    requires s == "Call me +1 234-567-8901 or x" && PythonOnSample(cc, s)
    ensures RunEnd(s, 10, c => PhoneChar(cc, c)) == 24
  {
    var cls := c => PhoneChar(cc, c);
    assert s[24] == 'o';
    var k := 24;
    while k > 10
      invariant 10 <= k <= 24
      invariant RunEnd(s, k, cls) == 24
    {
      k := k - 1;
      RunStep(s, k, cls);
    }
  }

  lemma PhoneAtPlus(cc: CharClasses, s: string)
    requires s == "Call me +1 234-567-8901 or x" && PythonOnSample(cc, s)
    ensures MatchAt(Phone, cc, s, 8) == Some(23)
  {
    PhoneRun(cc, s);
    assert s[22] == '1' && s[23] == ' ' && s[9] == '1';
    assert LastWhere(s, 10, 24, cc.digit) == Some(22);
  }

  lemma PhoneScan(cc: CharClasses, s: string)
    requires s == "Call me +1 234-567-8901 or x" && PythonOnSample(cc, s)
    ensures FindFirst(Phone, cc, s, 0) == Some((8, 23))
  {
    PhoneAtPlus(cc, s);
    var k := 8;
    while k > 0
      invariant 0 <= k <= 8
      invariant FindFirst(Phone, cc, s, k) == Some((8, 23))
    {
      k := k - 1;
      assert s[k] != '+' && !cc.digit(s[k]);
      ScanStep(Phone, cc, s, k);
    }
  }

  /** The leftmost phone-like run, taken up to its last digit. */
  lemma PhoneExample(cc: CharClasses, s: string)
    requires s == "Call me +1 234-567-8901 or x" && PythonOnSample(cc, s)
    ensures ExtractPhone(cc, s) == "+1 234-567-8901"
  {
    PhoneScan(cc, s);
    assert s[8..23] == "+1 234-567-8901";
  }

  // --- email -------------------------------------------------------------

  lemma EmailRuns(s: string)
    requires s == "a@b.com.x"
    ensures RunEnd(s, 0, LocalChar) == 1
    ensures RunEnd(s, 2, DomainChar) == 9
    ensures RunEnd(s, 8, AsciiLetter) == 9 && RunEnd(s, 4, AsciiLetter) == 7
  {
    var k := 9;
    while k > 2
      invariant 2 <= k <= 9
      invariant RunEnd(s, k, DomainChar) == 9
    {
      k := k - 1;
      RunStep(s, k, DomainChar);
    }
    assert RunEnd(s, 7, AsciiLetter) == 7;
    assert RunEnd(s, 6, AsciiLetter) == 7;
    assert RunEnd(s, 5, AsciiLetter) == 7;
  }

  /** The domain backtracks from "b.com.x" to the longest prefix followed by `.` and two letters. */
  lemma EmailExample(cc: CharClasses, s: string)
    requires s == "a@b.com.x"
    ensures ExtractEmail(cc, s) == "a@b.com"
  {
    EmailRuns(s);
    assert !TldDotAt(s, 8) && !TldDotAt(s, 7) && TldDotAt(s, 3);
    assert LastTldDot(s, 3, 9) == Some(3) by {
      assert LastTldDot(s, 3, 6) == Some(3);
    }
    assert MatchAt(Email, cc, s, 0) == Some(7);
    assert s[0..7] == "a@b.com";
  }

  // --- link --------------------------------------------------------------

  lemma LinkRun(cc: CharClasses, s: string)
    requires s == "see https://example.com/alice now" && PythonOnSample(cc, s)
    ensures RunEnd(s, 12, c => !cc.space(c)) == 29
  {
    var word := c => !cc.space(c);
    assert s[29] == ' ';
    var k := 29;
    while k > 12
      invariant 12 <= k <= 29
      invariant RunEnd(s, k, word) == 29
    {
      k := k - 1;
      RunStep(s, k, word);
    }
  }

  lemma LinkAtScheme(cc: CharClasses, s: string)
    requires s == "see https://example.com/alice now" && PythonOnSample(cc, s)
    ensures MatchAt(Link, cc, s, 4) == Some(29)
  {
    LinkRun(cc, s);
    assert s[4..12] == "https://" by {
      assert s[4] == 'h' && s[5] == 't' && s[6] == 't' && s[7] == 'p';
      assert s[8] == 's' && s[9] == ':' && s[10] == '/' && s[11] == '/';
    }
    assert s[12] == 'e';
  }

  lemma SchemeFifth(s: string, k: nat)
    ensures StartsWithAt(s, k, "https://") ==> s[k + 4] == 's'
    ensures StartsWithAt(s, k, "http://") ==> s[k + 4] == ':'
  {
    if StartsWithAt(s, k, "http://") {
      assert s[k..k + 7][4] == ':';
    }
    if StartsWithAt(s, k, "https://") {
      assert s[k..k + 8][4] == 's';
    }
  }

  lemma NoSchemeAt(cc: CharClasses, s: string, k: nat)
    requires k + 4 < |s| && s[k + 4] != 's' && s[k + 4] != ':'
    ensures MatchAt(Link, cc, s, k).None?
  {
    SchemeFifth(s, k);
  }

  /** Scanning from the front reaches the first start where the engine matches. */
  lemma ScanTo(p: Pattern, cc: CharClasses, s: string, i: nat, j: nat)
    requires i < |s| && MatchAt(p, cc, s, i) == Some(j)
    requires forall k :: 0 <= k < i ==> MatchAt(p, cc, s, k).None?
    ensures FindFirst(p, cc, s, 0) == Some((i, j))
  {
    var k := i;
    while k > 0
      invariant 0 <= k <= i
      invariant FindFirst(p, cc, s, k) == Some((i, j))
    {
      k := k - 1;
      ScanStep(p, cc, s, k);
    }
  }

  lemma ExtractAt(p: Pattern, cc: CharClasses, s: string, i: nat, j: nat)
    requires FindFirst(p, cc, s, 0) == Some((i, j))
    ensures i < j <= |s| && Extract(p, cc, s) == s[i..j]
  {
  }

  lemma LinkScan(cc: CharClasses, s: string)
    requires s == "see https://example.com/alice now" && PythonOnSample(cc, s)
    ensures FindFirst(Link, cc, s, 0) == Some((4, 29))
  {
    LinkAtScheme(cc, s);
    forall k | 0 <= k < 4 {
      NoSchemeAt(cc, s, k);
    }
    ScanTo(Link, cc, s, 4, 29);
  }

  /** The link runs from its scheme to the next whitespace. */
  lemma LinkExample(cc: CharClasses, s: string)
    requires s == "see https://example.com/alice now" && PythonOnSample(cc, s)
    ensures ExtractLink(cc, s) == "https://example.com/alice"
  {
    LinkScan(cc, s);
    ExtractAt(Link, cc, s, 4, 29);
    LinkSlice(s);
  }

  lemma LinkSlice(s: string)
    requires s == "see https://example.com/alice now"
    ensures s[4..29] == "https://example.com/alice"
  {
    var t := "https://example.com/alice";
    assert s == "see " + t + " now";
    assert s[4..29] == t;
  }

  /** An empty biography yields three empty fields. */
  lemma EmptyBioExample(cc: CharClasses)
    ensures ExtractPhone(cc, "") == "" && ExtractEmail(cc, "") == "" && ExtractLink(cc, "") == ""
  {
    assert FindFirst(Phone, cc, "", 0).None?;
    assert FindFirst(Email, cc, "", 0).None?;
    assert FindFirst(Link, cc, "", 0).None?;
  }
}
