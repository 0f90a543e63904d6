/** parsePointsFromText: three global, case-insensitive regular expressions scanned over a model
    reply, turned into one signed point change. */
module PointParser {
  import opened Wrappers
  import opened Text
  import opened GlobalScan

  /** The three regular expressions: awardRegex, deductRegex and genericRegex. */
  datatype Family = Award | Deduct | Generic

  /** The alternation that opens each regular expression, in its written order; the generic one has none. */
  function Keywords(f: Family): seq<string> {
    match f
    case Award => ["award", "gain", "get", "plus", "+"]
    case Deduct => ["deduct", "minus", "lose", "take away", "remove", "-"]
    case Generic => [""]
  }

  /** The lower-case literal `w` occurs at position `i` of `text`, letters compared without ASCII case
      (what the `i` flag does for ASCII patterns when the `u` flag is absent). */
  predicate HasAt(text: string, i: nat, w: string) {
    i + |w| <= |text| && forall k :: 0 <= k < |w| ==> LowerChar(text[i + k]) == w[k]
  }

  predicate AllSpace(text: string, lo: nat, hi: nat) {
    lo <= hi <= |text| && forall k :: lo <= k < hi ==> IsSpace(text[k])
  }

  predicate AllDigits(text: string, lo: nat, hi: nat) {
    lo <= hi <= |text| && forall k :: lo <= k < hi ==> IsDigit(text[k])
  }

  /** One way the text from a start position up to `end` can spell a match: the keyword, `\s*` (absent
      from the generic pattern), the captured `(\d+)` in [digitsStart, digitsEnd), `\s*`, then `points`
      or `house points` from suffixStart. */
  datatype Span = Span(keyword: string, digitsStart: nat, digitsEnd: nat, suffixStart: nat, end: nat)

  /** The regular expression of family `f`, tried at `start`, matches `text[start..s.end]` divided as `s`. */
  predicate IsMatch(f: Family, text: string, start: nat, s: Span) {
    && s.keyword in Keywords(f)
    && HasAt(text, start, s.keyword)
    && AllSpace(text, start + |s.keyword|, s.digitsStart)
    && (f == Generic ==> s.digitsStart == start)
    && AllDigits(text, s.digitsStart, s.digitsEnd) && s.digitsStart < s.digitsEnd
    && AllSpace(text, s.digitsEnd, s.suffixStart)
    && ((HasAt(text, s.suffixStart, "points") && s.end == s.suffixStart + 6)
        || (HasAt(text, s.suffixStart, "house points") && s.end == s.suffixStart + 12))
  }


  /** The value of the decimal digits `text[lo..hi]`, as `parseInt(digits, 10)` reads it. */
  function Value(text: string, lo: nat, hi: nat): nat
    requires AllDigits(text, lo, hi)
    decreases hi - lo
  {
    if hi <= lo then 0
    else
      assert IsDigit(text[hi - 1]);
      10 * Value(text, lo, hi - 1) + (text[hi - 1] as int - '0' as int)
  }

  /** What a match divided as `s` reports. */
  function HitOf(f: Family, text: string, start: nat, s: Span): Hit
    requires IsMatch(f, text, start, s)
  {
    Hit(start, s.end, Value(text, s.digitsStart, s.digitsEnd))
  }

  // ---------------------------------------------------------------------------------------------
  // The matcher: the regular expression tried at one position.

  /** End of the longest run of `\s` characters from `i`. */
  function SkipSpaces(text: string, i: nat): (r: nat)
    requires i <= |text|
    ensures AllSpace(text, i, r)
    ensures r == |text| || !IsSpace(text[r])
    decreases |text| - i
  {
    if i < |text| && IsSpace(text[i]) then SkipSpaces(text, i + 1) else i
  }

  /** End of the longest run of `\d` characters from `i`. */
  function SkipDigits(text: string, i: nat): (r: nat)
    requires i <= |text|
    ensures AllDigits(text, i, r)
    ensures r == |text| || !IsDigit(text[r])
    decreases |text| - i
  {
    if i < |text| && IsDigit(text[i]) then SkipDigits(text, i + 1) else i
  }

  /** The rest of the pattern after a keyword that ends at `a`, with or without the leading `\s*`. The
      greedy `\s*` and `\d+` never have to give characters back, because spaces, digits and the
      suffix's first letter are disjoint. */
  function MatchTail(text: string, start: nat, a: nat, lead: bool): (r: Option<Hit>)
    requires a <= |text|
    ensures r.Some? ==> r.value.start == start && a < r.value.end <= |text|
  {
    var b := if lead then SkipSpaces(text, a) else a;
    var c := SkipDigits(text, b);
    if b == c then None
    else
      var d := SkipSpaces(text, c);
      if HasAt(text, d, "points") then Some(Hit(start, d + 6, Value(text, b, c)))
      else if HasAt(text, d, "house points") then Some(Hit(start, d + 12, Value(text, b, c)))
      else None
  }

  /** Tries the alternatives `kws` at `start` in order, as the alternation does. */
  function MatchKeywords(text: string, start: nat, kws: seq<string>, lead: bool): (r: Option<Hit>)
    requires start <= |text|
    ensures r.Some? ==> r.value.start == start && start < r.value.end <= |text|
  {
    if kws == [] then None
    else if HasAt(text, start, kws[0]) && MatchTail(text, start, start + |kws[0]|, lead).Some? then
      MatchTail(text, start, start + |kws[0]|, lead)
    else MatchKeywords(text, start, kws[1..], lead)
  }

  /** The match of family `f` tried at `start`, if any; see MatchAtSound and MatchAtComplete. */
  function MatchAt(f: Family, text: string, start: nat): (r: Option<Hit>)
    requires start <= |text|
    ensures r.Some? ==> r.value.start == start && start < r.value.end <= |text|
  {
    MatchKeywords(text, start, Keywords(f), f != Generic)
  }

  // ---------------------------------------------------------------------------------------------
  // The global scan.

  /** The regular expression of family `f` tried at each position of `text`. */
  function Attempt(f: Family, text: string): nat -> Option<Hit> {
    (p: nat) => if p <= |text| then MatchAt(f, text, p) else None
  }

  lemma AttemptsOf(f: Family, text: string)
    ensures Attempts(Attempt(f, text), |text|)
  {
  }

  /** The matches `while ((match = re.exec(text)) !== null)` finds, from the start of the text. */
  function Matches(f: Family, text: string): seq<Hit> {
    AttemptsOf(f, text);
    All(Attempt(f, text), |text|, 0)
  }

  /** The sum of every match of family `f` in `text`. */
  function Total(f: Family, text: string): nat {
    Sum(Matches(f, text))
  }

  /** Awards minus deductions; only when that is exactly zero, the sum of the generic matches. */
  function Points(text: string): int {
    var explicit := Total(Award, text) - Total(Deduct, text);
    if explicit == 0 then Total(Generic, text) else explicit
  }

  // ---------------------------------------------------------------------------------------------
  // The matcher agrees with the regular expression.

  lemma HasAtFirst(text: string, i: nat, w: string)
    requires HasAt(text, i, w) && |w| > 0
    ensures i < |text| && LowerChar(text[i]) == w[0]
  {
    assert LowerChar(text[i + 0]) == w[0];
  }

  lemma HasAtSecond(text: string, i: nat, w: string)
    requires HasAt(text, i, w) && |w| > 1
    ensures LowerChar(text[i + 1]) == w[1]
  {
  }

  /** At one position at most one alternative of a family can match, since they differ in their
      first two letters. */
  lemma KeywordsExclusive(f: Family, text: string, i: nat, k1: string, k2: string)
    requires k1 in Keywords(f) && k2 in Keywords(f)
    requires HasAt(text, i, k1) && HasAt(text, i, k2)
    ensures k1 == k2
  {
    if f != Generic {
      HasAtFirst(text, i, k1);
      HasAtFirst(text, i, k2);
      if |k1| > 1 && |k2| > 1 {
        HasAtSecond(text, i, k1);
        HasAtSecond(text, i, k2);
      }
    }
  }

  lemma SkipSpacesUpTo(text: string, i: nat, j: nat)
    requires AllSpace(text, i, j) && (j == |text| || !IsSpace(text[j]))
    ensures SkipSpaces(text, i) == j
  {
  }

  lemma SkipDigitsUpTo(text: string, i: nat, j: nat)
    requires AllDigits(text, i, j) && (j == |text| || !IsDigit(text[j]))
    ensures SkipDigits(text, i) == j
  {
  }

  /** The suffix's first letter is `p` or `h`: neither a space nor a digit. */
  lemma SuffixStartsWithLetter(f: Family, text: string, start: nat, s: Span)
    requires IsMatch(f, text, start, s)
    ensures s.suffixStart < |text| && !IsSpace(text[s.suffixStart]) && !IsDigit(text[s.suffixStart])
    ensures HasAt(text, s.suffixStart, "points") <==> s.end == s.suffixStart + 6
  {
    if HasAt(text, s.suffixStart, "points") {
      HasAtFirst(text, s.suffixStart, "points");
    }
    if HasAt(text, s.suffixStart, "house points") {
      HasAtFirst(text, s.suffixStart, "house points");
    }
  }

  /** Maximal runs of spaces and digits followed by the suffix are what MatchTail goes through. */
  lemma MatchTailOfParts(text: string, start: nat, a: nat, lead: bool, b: nat, c: nat, d: nat, e: nat)
    requires AllSpace(text, a, b) && (!lead ==> b == a) && (lead ==> b == |text| || !IsSpace(text[b]))
    requires AllDigits(text, b, c) && b < c && (c == |text| || !IsDigit(text[c]))
    requires AllSpace(text, c, d) && d < |text| && !IsSpace(text[d])
    requires (HasAt(text, d, "points") && e == d + 6) || (!HasAt(text, d, "points") && HasAt(text, d, "house points") && e == d + 12)
    ensures MatchTail(text, start, a, lead) == Some(Hit(start, e, Value(text, b, c)))
  {
    if lead {
      SkipSpacesUpTo(text, a, b);
    }
    SkipDigitsUpTo(text, b, c);
    SkipSpacesUpTo(text, c, d);
  }

  /** The part of a match after its keyword is found by MatchTail. */
  lemma MatchTailOfSpan(f: Family, text: string, start: nat, s: Span)
    requires IsMatch(f, text, start, s)
    ensures MatchTail(text, start, start + |s.keyword|, f != Generic) == Some(HitOf(f, text, start, s))
  {
    SuffixStartsWithLetter(f, text, start, s);
    if f == Generic {
      assert s.keyword == "";
    }
    MatchTailOfParts(text, start, start + |s.keyword|, f != Generic, s.digitsStart, s.digitsEnd, s.suffixStart, s.end);
  }

  lemma {:induction false} MatchKeywordsFinds(text: string, start: nat, kws: seq<string>, lead: bool, kw: string, h: Hit)
    requires start <= |text| && start + |kw| <= |text|
    requires kw in kws && HasAt(text, start, kw) && MatchTail(text, start, start + |kw|, lead) == Some(h)
    requires forall k :: k in kws && HasAt(text, start, k) ==> k == kw
    ensures MatchKeywords(text, start, kws, lead) == Some(h)
    decreases |kws|
  {
    if kws[0] != kw {
      MatchKeywordsFinds(text, start, kws[1..], lead, kw, h);
    }
  }

  /** Every way the regular expression can match at `start` is what MatchAt reports. */
  lemma MatchAtComplete(f: Family, text: string, start: nat, s: Span)
    requires IsMatch(f, text, start, s)
    ensures start <= |text| && MatchAt(f, text, start) == Some(HitOf(f, text, start, s))
  {
    MatchTailOfSpan(f, text, start, s);
    forall k | k in Keywords(f) && HasAt(text, start, k) ensures k == s.keyword {
      KeywordsExclusive(f, text, start, k, s.keyword);
    }
    MatchKeywordsFinds(text, start, Keywords(f), f != Generic, s.keyword, HitOf(f, text, start, s));
  }

  lemma {:induction false} MatchKeywordsChose(text: string, start: nat, kws: seq<string>, lead: bool)
    requires start <= |text| && MatchKeywords(text, start, kws, lead).Some?
    ensures exists kw :: kw in kws && HasAt(text, start, kw)
                      && MatchTail(text, start, start + |kw|, lead) == MatchKeywords(text, start, kws, lead)
    decreases |kws|
  {
    if !(HasAt(text, start, kws[0]) && MatchTail(text, start, start + |kws[0]|, lead).Some?) {
      MatchKeywordsChose(text, start, kws[1..], lead);
      var kw :| kw in kws[1..] && HasAt(text, start, kw)
                && MatchTail(text, start, start + |kw|, lead) == MatchKeywords(text, start, kws, lead);
      assert kw in kws;
    } else {
      assert kws[0] in kws;
    }
  }

  /** The two words that can close a match. */
  const Suffixes: seq<string> := ["points", "house points"]

  /** The text from `a` on reads spaces in [a, b), digits in [b, c), spaces in [c, d), then the
      suffix `w`. */
  predicate Tail(text: string, a: nat, b: nat, c: nat, d: nat, w: string) {
    && AllSpace(text, a, b) && AllDigits(text, b, c) && b < c && AllSpace(text, c, d)
    && w in Suffixes && HasAt(text, d, w)
  }

  /** The parts of the text a successful MatchTail went through. */
  lemma MatchTailParts(text: string, start: nat, a: nat, lead: bool) returns (b: nat, c: nat, d: nat, w: string, e: nat)
    requires a <= |text| && MatchTail(text, start, a, lead).Some?
    ensures Tail(text, a, b, c, d, w) && (!lead ==> b == a) && e == d + |w|
    ensures MatchTail(text, start, a, lead) == Some(Hit(start, e, Value(text, b, c)))
  {
    b := if lead then SkipSpaces(text, a) else a;
    c := SkipDigits(text, b);
    d := SkipSpaces(text, c);
    w := if HasAt(text, d, "points") then "points" else "house points";
    e := d + |w|;
  }

  /** Parts of the text that fit the pattern piece by piece make up a match, divided as `s`. */
  lemma SpanOfParts(f: Family, text: string, start: nat, kw: string, a: nat, b: nat, c: nat, d: nat, w: string, e: nat, amount: nat, s: Span)
    requires kw in Keywords(f) && HasAt(text, start, kw) && a == start + |kw|
    requires Tail(text, a, b, c, d, w) && (f == Generic ==> b == start) && e == d + |w|
    requires s == Span(kw, b, c, d, e) && Value(text, b, c) == amount
    ensures IsMatch(f, text, start, s) && HitOf(f, text, start, s) == Hit(start, e, amount)
  {
  }

  /** The division of the text that a successful MatchTail after keyword `kw` went through. */
  lemma MatchTailSpan(f: Family, text: string, start: nat, kw: string) returns (s: Span)
    requires kw in Keywords(f) && HasAt(text, start, kw)
    requires MatchTail(text, start, start + |kw|, f != Generic).Some?
    ensures IsMatch(f, text, start, s)
    ensures MatchTail(text, start, start + |kw|, f != Generic) == Some(HitOf(f, text, start, s))
  {
    var a := start + |kw|;
    var b, c, d, w, e := MatchTailParts(text, start, a, f != Generic);
    assert f == Generic ==> kw == "";
    s := Span(kw, b, c, d, e);
    SpanOfParts(f, text, start, kw, a, b, c, d, w, e, Value(text, b, c), s);
  }

  /** Whatever MatchAt reports is a way the regular expression matches at `start`. */
  lemma MatchAtSound(f: Family, text: string, start: nat)
    requires start <= |text| && MatchAt(f, text, start).Some?
    ensures exists s :: IsMatch(f, text, start, s) && HitOf(f, text, start, s) == MatchAt(f, text, start).value
  {
    MatchKeywordsChose(text, start, Keywords(f), f != Generic);
    var kw :| kw in Keywords(f) && HasAt(text, start, kw)
              && MatchTail(text, start, start + |kw|, f != Generic) == MatchAt(f, text, start);
    var s := MatchTailSpan(f, text, start, kw);
  }

  /** MatchAt finds nothing exactly where the regular expression cannot match. */
  lemma MatchAtNone(f: Family, text: string, start: nat)
    requires start <= |text|
    ensures MatchAt(f, text, start).None? <==> forall s :: !IsMatch(f, text, start, s)
  {
    if MatchAt(f, text, start).Some? {
      MatchAtSound(f, text, start);
    } else {
      forall s | IsMatch(f, text, start, s) ensures false {
        MatchAtComplete(f, text, start, s);
      }
    }
  }

  // ---------------------------------------------------------------------------------------------
  // The global scan in terms of the regular expression.

  /** No way of matching the regular expression starts in [lo, hi). */
  ghost predicate NoSpanIn(f: Family, text: string, lo: nat, hi: nat) {
    forall p: nat, s :: lo <= p < hi ==> !IsMatch(f, text, p, s)
  }

  /** A global scan from `from` described by the regular expression alone: `hs` lists, in order, a
      match at the first position from which the expression matches, then the scan resumed where it
      ended, until no match is left. */
  ghost predicate RegexScan(f: Family, text: string, from: nat, hs: seq<Hit>)
    decreases hs
  {
    if hs == [] then NoSpanIn(f, text, from, |text|)
    else
      && from <= hs[0].start
      && NoSpanIn(f, text, from, hs[0].start)
      && (exists s :: IsMatch(f, text, hs[0].start, s) && HitOf(f, text, hs[0].start, s) == hs[0])
      && RegexScan(f, text, hs[0].end, hs[1..])
  }

  /** The matcher finds nothing in a stretch exactly when the expression matches nowhere in it. */
  lemma NoSpanIffNone(f: Family, text: string, lo: nat, hi: nat)
    requires hi <= |text|
    ensures NoneIn(Attempt(f, text), lo, hi) <==> NoSpanIn(f, text, lo, hi)
  {
    if NoneIn(Attempt(f, text), lo, hi) {
      forall p: nat, s | lo <= p < hi ensures !IsMatch(f, text, p, s) {
        assert Attempt(f, text)(p).None?;
        MatchAtNone(f, text, p);
      }
    }
    if NoSpanIn(f, text, lo, hi) {
      forall p: nat | lo <= p < hi ensures Attempt(f, text)(p).None? {
        MatchAtNone(f, text, p);
        assert MatchAt(f, text, p).None?;
      }
    }
  }

  /** The match the matcher reports at `p` is a match of the expression there, and conversely. */
  lemma AttemptIffMatch(f: Family, text: string, h: Hit)
    requires h.start <= |text|
    ensures Attempt(f, text)(h.start) == Some(h) <==>
            exists s :: IsMatch(f, text, h.start, s) && HitOf(f, text, h.start, s) == h
  {
    if Attempt(f, text)(h.start) == Some(h) {
      MatchAtSound(f, text, h.start);
    }
    if exists s :: IsMatch(f, text, h.start, s) && HitOf(f, text, h.start, s) == h {
      var s :| IsMatch(f, text, h.start, s) && HitOf(f, text, h.start, s) == h;
      MatchAtComplete(f, text, h.start, s);
    }
  }

  /** The two descriptions of the global scan agree. */
  lemma {:induction false} RegexScanIsScan(f: Family, text: string, from: nat, hs: seq<Hit>)
    requires from <= |text|
    ensures RegexScan(f, text, from, hs) <==> IsScan(Attempt(f, text), |text|, from, hs)
    decreases hs
  {
    AttemptsOf(f, text);
    if hs == [] {
      NoSpanIffNone(f, text, from, |text|);
    } else {
      var h := hs[0];
      if RegexScan(f, text, from, hs) {
        var s :| IsMatch(f, text, h.start, s) && HitOf(f, text, h.start, s) == h;
        MatchAtComplete(f, text, h.start, s);
        NoSpanIffNone(f, text, from, h.start);
        RegexScanIsScan(f, text, h.end, hs[1..]);
      }
      if IsScan(Attempt(f, text), |text|, from, hs) {
        AttemptIffMatch(f, text, h);
        NoSpanIffNone(f, text, from, h.start);
        RegexScanIsScan(f, text, h.end, hs[1..]);
      }
    }
  }

  /** The matches the loops find are the global scan of the regular expression ... */
  lemma MatchesAreRegexScan(f: Family, text: string)
    ensures RegexScan(f, text, 0, Matches(f, text))
  {
    AttemptsOf(f, text);
    AllIsScan(Attempt(f, text), |text|, 0);
    RegexScanIsScan(f, text, 0, Matches(f, text));
  }

  /** ... and the only one. */
  lemma RegexScanIsMatches(f: Family, text: string, hs: seq<Hit>)
    requires RegexScan(f, text, 0, hs)
    ensures hs == Matches(f, text)
  {
    AttemptsOf(f, text);
    RegexScanIsScan(f, text, 0, hs);
    ScanIsAll(Attempt(f, text), |text|, 0, hs);
  }

  // ---------------------------------------------------------------------------------------------
  // What the point change is.

  /** When the award and deduction scans do not cancel, the point change is awards minus deductions. */
  lemma PointsExplicit(text: string, awards: seq<Hit>, deductions: seq<Hit>)
    requires RegexScan(Award, text, 0, awards) && RegexScan(Deduct, text, 0, deductions)
    requires Sum(awards) != Sum(deductions)
    ensures Points(text) == Sum(awards) - Sum(deductions)
  {
    RegexScanIsMatches(Award, text, awards);
    RegexScanIsMatches(Deduct, text, deductions);
  }

  /** When they cancel (no explicit phrase at all, or awards equal to deductions), the point change is
      the sum of every generic `<n> points` match, so it is never negative. */
  lemma PointsFallback(text: string, awards: seq<Hit>, deductions: seq<Hit>, generic: seq<Hit>)
    requires RegexScan(Award, text, 0, awards) && RegexScan(Deduct, text, 0, deductions)
    requires RegexScan(Generic, text, 0, generic)
    requires Sum(awards) == Sum(deductions)
    ensures Points(text) == Sum(generic) && Points(text) >= 0
  {
    RegexScanIsMatches(Award, text, awards);
    RegexScanIsMatches(Deduct, text, deductions);
    RegexScanIsMatches(Generic, text, generic);
  }

  /** Both suffixes end in `points`. */
  lemma MatchEndsInPoints(f: Family, text: string, start: nat, s: Span)
    requires IsMatch(f, text, start, s)
    ensures s.end >= 6 && HasAt(text, s.end - 6, "points")
  {
    if !(HasAt(text, s.suffixStart, "points") && s.end == s.suffixStart + 6) {
      var q := s.suffixStart;
      forall k | 0 <= k < 6 ensures LowerChar(text[q + 6 + k]) == "points"[k] {
        assert LowerChar(text[q + (6 + k)]) == "house points"[6 + k];
      }
    }
  }

  /** Every match contains `points`, so text without it has no match of any family. */
  lemma NoPointsNoMatches(f: Family, text: string)
    requires forall p: nat :: !HasAt(text, p, "points")
    ensures Matches(f, text) == []
  {
    forall p: nat | p < |text| ensures Attempt(f, text)(p).None? {
      if MatchAt(f, text, p).Some? {
        MatchAtSound(f, text, p);
        var s :| IsMatch(f, text, p, s) && HitOf(f, text, p, s) == MatchAt(f, text, p).value;
        MatchEndsInPoints(f, text, p, s);
      }
    }
    AttemptsOf(f, text);
    ScanIsAll(Attempt(f, text), |text|, 0, []);
  }

  /** A reply in which `points` never occurs, in any letter case, changes nothing. */
  lemma PointsNeedTheWordPoints(text: string)
    requires forall p: nat :: !HasAt(text, p, "points")
    ensures Points(text) == 0
  {
    NoPointsNoMatches(Award, text);
    NoPointsNoMatches(Deduct, text);
    NoPointsNoMatches(Generic, text);
  }

  // ---------------------------------------------------------------------------------------------
  // Letter case does not matter.

  /** `t1` and `t2` differ at most in the case of ASCII letters. */
  predicate SameFold(t1: string, t2: string) {
    |t1| == |t2| && forall i :: 0 <= i < |t1| ==> LowerChar(t1[i]) == LowerChar(t2[i])
  }

  lemma {:induction false} ValueOfSameDigits(t1: string, t2: string, lo: nat, hi: nat)
    requires AllDigits(t1, lo, hi) && AllDigits(t2, lo, hi)
    requires forall k :: lo <= k < hi ==> t1[k] == t2[k]
    ensures Value(t1, lo, hi) == Value(t2, lo, hi)
    decreases hi - lo
  {
    if lo < hi {
      ValueOfSameDigits(t1, t2, lo, hi - 1);
    }
  }

  lemma SameFoldHasAt(t1: string, t2: string, i: nat, w: string)
    requires SameFold(t1, t2)
    ensures HasAt(t1, i, w) == HasAt(t2, i, w)
  {
    if HasAt(t1, i, w) {
      forall k | 0 <= k < |w| ensures LowerChar(t2[i + k]) == w[k] {
        assert LowerChar(t1[i + k]) == w[k];
      }
    }
    if HasAt(t2, i, w) {
      forall k | 0 <= k < |w| ensures LowerChar(t1[i + k]) == w[k] {
        assert LowerChar(t2[i + k]) == w[k];
      }
    }
  }

  lemma SameFoldIsMatch(f: Family, t1: string, t2: string, start: nat, s: Span)
    requires SameFold(t1, t2) && IsMatch(f, t1, start, s)
    ensures IsMatch(f, t2, start, s) && HitOf(f, t2, start, s) == HitOf(f, t1, start, s)
  {
    SameFoldHasAt(t1, t2, start, s.keyword);
    SameFoldHasAt(t1, t2, s.suffixStart, "points");
    SameFoldHasAt(t1, t2, s.suffixStart, "house points");
    assert forall k :: 0 <= k < |t1| ==> LowerChar(t1[k]) == LowerChar(t2[k]);
    assert AllDigits(t2, s.digitsStart, s.digitsEnd);
    ValueOfSameDigits(t1, t2, s.digitsStart, s.digitsEnd);
  }

  lemma SameFoldMatchAt(f: Family, t1: string, t2: string, start: nat)
    requires SameFold(t1, t2) && start <= |t1|
    ensures MatchAt(f, t1, start) == MatchAt(f, t2, start)
  {
    if MatchAt(f, t1, start).Some? {
      MatchAtSound(f, t1, start);
      var s :| IsMatch(f, t1, start, s) && HitOf(f, t1, start, s) == MatchAt(f, t1, start).value;
      SameFoldIsMatch(f, t1, t2, start, s);
      MatchAtComplete(f, t2, start, s);
    } else if MatchAt(f, t2, start).Some? {
      MatchAtSound(f, t2, start);
      var s :| IsMatch(f, t2, start, s) && HitOf(f, t2, start, s) == MatchAt(f, t2, start).value;
      SameFoldIsMatch(f, t2, t1, start, s);
      MatchAtComplete(f, t1, start, s);
    }
  }

  /** Texts equal up to ASCII letter case have the same matches. */
  lemma SameFoldMatches(f: Family, t1: string, t2: string)
    requires SameFold(t1, t2)
    ensures Matches(f, t1) == Matches(f, t2)
  {
    forall p: nat | p <= |t1| ensures Attempt(f, t1)(p) == Attempt(f, t2)(p) {
      SameFoldMatchAt(f, t1, t2, p);
    }
    AttemptsOf(f, t1);
    AttemptsOf(f, t2);
    AllAgree(Attempt(f, t1), Attempt(f, t2), |t1|, 0);
  }

  /** The keywords match in any letter case: texts equal up to ASCII case give the same point change. */
  lemma PointsIgnoreCase(t1: string, t2: string)
    requires Lower(t1) == Lower(t2)
    ensures Points(t1) == Points(t2)
  {
    assert SameFold(t1, t2) by {
      forall i | 0 <= i < |t1| ensures LowerChar(t1[i]) == LowerChar(t2[i]) {
        assert Lower(t1)[i] == Lower(t2)[i];
      }
    }
    SameFoldMatches(Award, t1, t2);
    SameFoldMatches(Deduct, t1, t2);
    SameFoldMatches(Generic, t1, t2);
  }

  // ---------------------------------------------------------------------------------------------
  // No word boundaries.

  /** `t` occurs in `u` from position `n` on. */
  ghost predicate Embedded(u: string, n: nat, t: string) {
    n + |t| <= |u| && forall k :: 0 <= k < |t| ==> u[n + k] == t[k]
  }

  lemma ConcatEmbeds(pre: string, t: string)
    ensures Embedded(pre + t, |pre|, t)
  {
    forall k | 0 <= k < |t| ensures (pre + t)[|pre| + k] == t[k] {
    }
  }

  lemma {:induction false} ValueShift(u: string, n: nat, t: string, lo: nat, hi: nat)
    requires Embedded(u, n, t) && AllDigits(t, lo, hi)
    ensures AllDigits(u, n + lo, n + hi) && Value(u, n + lo, n + hi) == Value(t, lo, hi)
    decreases hi - lo
  {
    forall k | n + lo <= k < n + hi ensures IsDigit(u[k]) {
      assert u[n + (k - n)] == t[k - n];
    }
    if lo < hi {
      ValueShift(u, n, t, lo, hi - 1);
      assert u[n + (hi - 1)] == t[hi - 1];
    }
  }

  lemma HasAtShift(u: string, n: nat, t: string, i: nat, w: string)
    requires Embedded(u, n, t) && HasAt(t, i, w)
    ensures HasAt(u, n + i, w)
  {
    forall k | 0 <= k < |w| ensures LowerChar(u[n + i + k]) == w[k] {
      assert u[n + (i + k)] == t[i + k];
    }
  }

  lemma AllSpaceShift(u: string, n: nat, t: string, lo: nat, hi: nat)
    requires Embedded(u, n, t) && AllSpace(t, lo, hi)
    ensures AllSpace(u, n + lo, n + hi)
  {
    forall k | n + lo <= k < n + hi ensures IsSpace(u[k]) {
      assert u[n + (k - n)] == t[k - n];
    }
  }

  /** The word that closes a match. */
  lemma MatchSuffix(f: Family, text: string, start: nat, s: Span) returns (w: string)
    requires IsMatch(f, text, start, s)
    ensures w in Suffixes && HasAt(text, s.suffixStart, w) && s.end == s.suffixStart + |w|
  {
    SuffixStartsWithLetter(f, text, start, s);
    w := if HasAt(text, s.suffixStart, "points") then "points" else "house points";
  }

  /** The parts of a match inside `t`, moved to where `t` occurs in `u`. */
  lemma ShiftParts(f: Family, u: string, n: nat, t: string, start: nat, s: Span) returns (w: string, amount: nat)
    requires Embedded(u, n, t) && IsMatch(f, t, start, s)
    ensures HasAt(u, n + start, s.keyword)
    ensures Tail(u, n + (start + |s.keyword|), n + s.digitsStart, n + s.digitsEnd, n + s.suffixStart, w)
    ensures amount == HitOf(f, t, start, s).amount && Value(u, n + s.digitsStart, n + s.digitsEnd) == amount
    ensures s.end == s.suffixStart + |w|
  {
    amount := HitOf(f, t, start, s).amount;
    w := MatchSuffix(f, t, start, s);
    HasAtShift(u, n, t, start, s.keyword);
    AllSpaceShift(u, n, t, start + |s.keyword|, s.digitsStart);
    AllSpaceShift(u, n, t, s.digitsEnd, s.suffixStart);
    ValueShift(u, n, t, s.digitsStart, s.digitsEnd);
    HasAtShift(u, n, t, s.suffixStart, w);
  }

  /** A match inside `t` is a match, with the same value, wherever `t` occurs in a longer text. */
  lemma MatchShift(f: Family, u: string, n: nat, t: string, start: nat, s: Span) returns (s': Span)
    requires Embedded(u, n, t) && IsMatch(f, t, start, s)
    ensures IsMatch(f, u, n + start, s') && s'.keyword == s.keyword
    ensures HitOf(f, u, n + start, s') == Hit(n + start, n + s.end, HitOf(f, t, start, s).amount)
  {
    var kw, ds, de, ss, e := s.keyword, s.digitsStart, s.digitsEnd, s.suffixStart, s.end;
    var w, amount := ShiftParts(f, u, n, t, start, s);
    s' := Span(kw, n + ds, n + de, n + ss, n + e);
    SpanOfParts(f, u, n + start, kw, n + (start + |kw|), n + ds, n + de, n + ss, w, n + e, amount, s');
  }

  /** Whatever precedes a match does not affect it: the patterns carry no word boundaries, so the
      `get` in `forget 5 points` opens an award and the `-` in `x-5 points` a deduction. */
  lemma MatchIgnoresPrefix(f: Family, pre: string, t: string, start: nat, s: Span) returns (s': Span)
    requires IsMatch(f, t, start, s)
    ensures IsMatch(f, pre + t, |pre| + start, s') && s'.keyword == s.keyword
    ensures HitOf(f, pre + t, |pre| + start, s') == Hit(|pre| + start, |pre| + s.end, HitOf(f, t, start, s).amount)
  {
    ConcatEmbeds(pre, t);
    s' := MatchShift(f, pre + t, |pre|, t, start, s);
  }

  /** `forget 5 points` holds an award of 5 starting at its `get`. */
  lemma ForgetIsAnAward()
    ensures MatchAt(Award, "forget 5 points", 3) == Some(Hit(3, 15, 5))
  {
    var t := "forget 5 points";
    var s := Span("get", 7, 8, 9, 15);
    assert HasAt(t, 3, "get") by {
      forall k | 0 <= k < 3 ensures LowerChar(t[3 + k]) == "get"[k] {
        if k == 0 {} else if k == 1 {} else {}
      }
    }
    assert HasAt(t, 9, "points") by {
      forall k | 0 <= k < 6 ensures LowerChar(t[9 + k]) == "points"[k] {
        if k == 0 {} else if k == 1 {} else if k == 2 {} else if k == 3 {} else if k == 4 {} else {}
      }
    }
    assert Value(t, 7, 8) == 5;
    assert IsMatch(Award, t, 3, s);
    MatchAtComplete(Award, t, 3, s);
  }

  /** `x-5 points` holds a deduction of 5 starting at its `-`. */
  lemma HyphenIsADeduction()
    ensures MatchAt(Deduct, "x-5 points", 1) == Some(Hit(1, 10, 5))
  {
    var t := "x-5 points";
    var s := Span("-", 2, 3, 4, 10);
    assert HasAt(t, 1, "-") by {
      assert LowerChar(t[1 + 0]) == "-"[0];
    }
    assert HasAt(t, 4, "points") by {
      forall k | 0 <= k < 6 ensures LowerChar(t[4 + k]) == "points"[k] {
        if k == 0 {} else if k == 1 {} else if k == 2 {} else if k == 3 {} else if k == 4 {} else {}
      }
    }
    assert Value(t, 2, 3) == 5;
    assert IsMatch(Deduct, t, 1, s);
    MatchAtComplete(Deduct, t, 1, s);
  }

  // ---------------------------------------------------------------------------------------------
  // The imperative scanner.

  /** parsePointsFromText: the three `while ((match = re.exec(text)) !== null)` loops. */
  method ParsePoints(text: string) returns (totalChange: int)
    ensures totalChange == Points(text)
  {
    AttemptsOf(Deduct, text);
    AttemptsOf(Award, text);
    AttemptsOf(Generic, text);
    var deductRegex, awardRegex, genericRegex := Attempt(Deduct, text), Attempt(Award, text), Attempt(Generic, text);
    totalChange := 0;
    var lastIndex: nat := 0;
    var m := Exec(deductRegex, |text|, lastIndex);
    while m.Some?
      invariant lastIndex <= |text| && m == Next(deductRegex, |text|, lastIndex)
      invariant totalChange == Sum(All(deductRegex, |text|, lastIndex)) - Total(Deduct, text)
      decreases |text| - lastIndex
    {
      totalChange := totalChange - m.value.amount;
      lastIndex := m.value.end;
      m := Exec(deductRegex, |text|, lastIndex);
    }
    lastIndex := 0;
    m := Exec(awardRegex, |text|, lastIndex);
    while m.Some?
      invariant lastIndex <= |text| && m == Next(awardRegex, |text|, lastIndex)
      invariant totalChange == Total(Award, text) - Sum(All(awardRegex, |text|, lastIndex)) - Total(Deduct, text)
      decreases |text| - lastIndex
    {
      totalChange := totalChange + m.value.amount;
      lastIndex := m.value.end;
      m := Exec(awardRegex, |text|, lastIndex);
    }
    if totalChange == 0 {
      lastIndex := 0;
      m := Exec(genericRegex, |text|, lastIndex);
      while m.Some?
        invariant lastIndex <= |text| && m == Next(genericRegex, |text|, lastIndex)
        invariant totalChange == Total(Generic, text) - Sum(All(genericRegex, |text|, lastIndex))
        decreases |text| - lastIndex
      {
        totalChange := totalChange + m.value.amount;
        lastIndex := m.value.end;
        m := Exec(genericRegex, |text|, lastIndex);
      }
    }
  }
}