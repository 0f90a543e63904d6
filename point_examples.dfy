/** Worked examples of the point parser on sample replies. */
module PointExamples {
  import opened Text
  import opened GlobalScan
  import opened PointParser

  // ---------------------------------------------------------------------------------------------
  // Worked examples. Keywords are located by comparing slices of the constant text, and the stretches
  // without a match are cleared position by position with a check of one or two letters that the
  // verifier evaluates on constant text.

  /** A lower-case word that a slice of the text spells exactly occurs there. */
  lemma SliceHasAt(t: string, i: nat, w: string)
    requires i + |w| <= |t| && t[i..i + |w|] == w
    requires forall k :: 0 <= k < |w| ==> !('A' <= w[k] <= 'Z')
    ensures HasAt(t, i, w)
  {
    forall k | 0 <= k < |w| ensures LowerChar(t[i + k]) == w[k] {
      assert t[i + k] == t[i..i + |w|][k];
    }
  }

  /** A slice that spells `w` up to ASCII letter case holds `w`. */
  lemma FoldedSliceHasAt(t: string, i: nat, u: string, w: string)
    requires i + |u| <= |t| && t[i..i + |u|] == u && |u| == |w|
    requires forall k :: 0 <= k < |w| ==> LowerChar(u[k]) == w[k]
    ensures HasAt(t, i, w)
  {
    forall k | 0 <= k < |w| ensures LowerChar(t[i + k]) == w[k] {
      assert t[i + k] == t[i..i + |u|][k];
    }
  }

  /** The letters at `p` could open a match of `f`: the first one or two letters of one of its
      keywords (compared without letter case), or a digit for the generic pattern. */
  predicate MayStartAt(f: Family, t: string, p: nat) {
    p < |t| &&
    var c := LowerChar(t[p]);
    var d := if p + 1 < |t| then LowerChar(t[p + 1]) else ' ';
    match f
    case Award => c == '+' || (c == 'a' && d == 'w') || (c == 'g' && (d == 'a' || d == 'e')) || (c == 'p' && d == 'l')
    case Deduct => c == '-' || (c == 'd' && d == 'e') || (c == 'm' && d == 'i') || (c == 'l' && d == 'o')
                   || (c == 't' && d == 'a') || (c == 'r' && d == 'e')
    case Generic => IsDigit(t[p])
  }

  lemma MatchMayStart(f: Family, t: string, p: nat, s: Span)
    requires IsMatch(f, t, p, s)
    ensures MayStartAt(f, t, p)
  {
    SuffixStartsWithLetter(f, t, p, s);
    if f != Generic {
      HasAtFirst(t, p, s.keyword);
      if |s.keyword| > 1 {
        HasAtSecond(t, p, s.keyword);
      }
    } else {
      assert IsDigit(t[s.digitsStart]);
    }
  }

  /** No position in [lo, hi) could open a match of `f`. */
  predicate Quiet(f: Family, t: string, lo: nat, hi: nat)
    decreases hi - lo
  {
    lo >= hi || (!MayStartAt(f, t, lo) && Quiet(f, t, lo + 1, hi))
  }

  lemma {:induction false} QuietNoSpan(f: Family, t: string, lo: nat, hi: nat)
    requires Quiet(f, t, lo, hi)
    ensures NoSpanIn(f, t, lo, hi)
    decreases hi - lo
  {
    if lo < hi {
      forall s | IsMatch(f, t, lo, s) ensures false {
        MatchMayStart(f, t, lo, s);
      }
      QuietNoSpan(f, t, lo + 1, hi);
    }
  }

  lemma {:induction false} QuietJoin(f: Family, t: string, lo: nat, mid: nat, hi: nat)
    requires lo <= mid && Quiet(f, t, lo, mid) && Quiet(f, t, mid, hi)
    ensures Quiet(f, t, lo, hi)
    decreases mid - lo
  {
    if lo < mid {
      QuietJoin(f, t, lo + 1, mid, hi);
    }
  }

  /** Every stretch between consecutive cut points is quiet. */
  predicate QuietPieces(f: Family, t: string, cuts: seq<nat>)
    decreases |cuts|
  {
    |cuts| < 2 || (cuts[0] <= cuts[1] && Quiet(f, t, cuts[0], cuts[1]) && QuietPieces(f, t, cuts[1..]))
  }

  /** Quiet stretches checked in chunks of a few positions each. */
  lemma {:induction false} QuietChunks(f: Family, t: string, cuts: seq<nat>)
    requires |cuts| >= 2 && QuietPieces(f, t, cuts)
    ensures Quiet(f, t, cuts[0], cuts[|cuts| - 1])
    decreases |cuts|
  {
    if |cuts| > 2 {
      QuietChunks(f, t, cuts[1..]);
      QuietJoin(f, t, cuts[0], cuts[1], cuts[|cuts| - 1]);
    }
  }

  lemma NoSpanJoin(f: Family, t: string, lo: nat, mid: nat, hi: nat)
    requires lo <= mid <= hi && NoSpanIn(f, t, lo, mid) && NoSpanIn(f, t, mid, hi)
    ensures NoSpanIn(f, t, lo, hi)
  {
  }

  /** Keywords of two letters or more are told apart by their first two letters. */
  lemma TwoLettersDecide(f: Family, k1: string, k2: string)
    requires k1 in Keywords(f) && k2 in Keywords(f) && |k1| >= 2
    requires |k2| >= 1 && k2[0] == k1[0] && (|k2| >= 2 ==> k2[1] == k1[1])
    ensures k1 == k2
  {
  }

  /** `w` occurs at `p`: letter `j` of `w` is there. */
  lemma HasAtLetter(t: string, p: nat, w: string, j: nat)
    requires HasAt(t, p, w) && j < |w|
    ensures p + j < |t| && LowerChar(t[p + j]) == w[j]
  {
  }

  /** The first two letters of a keyword at `p` followed by a letter that breaks it start no match. */
  lemma KeywordBreaks(f: Family, t: string, p: nat, kw: string, j: nat)
    requires kw in Keywords(f) && 2 <= j < |kw| && p + j < |t|
    requires LowerChar(t[p]) == kw[0] && LowerChar(t[p + 1]) == kw[1] && LowerChar(t[p + j]) != kw[j]
    ensures NoSpanIn(f, t, p, p + 1)
  {
    forall s | IsMatch(f, t, p, s) ensures false {
      var k := s.keyword;
      HasAtFirst(t, p, k);
      if |k| >= 2 {
        HasAtSecond(t, p, k);
      }
      TwoLettersDecide(f, kw, k);
      HasAtLetter(t, p, k, j);
    }
  }

  /** A keyword followed by a letter, as in `awarded`, starts no match. */
  lemma WordContinues(f: Family, t: string, p: nat, kw: string)
    requires kw in Keywords(f) && HasAt(t, p, kw)
    requires p + |kw| < |t| && !IsSpace(t[p + |kw|]) && !IsDigit(t[p + |kw|])
    ensures NoSpanIn(f, t, p, p + 1)
  {
    forall s | IsMatch(f, t, p, s) ensures false {
      KeywordsExclusive(f, t, p, s.keyword, kw);
    }
  }

  /** A match preceded by no other, then the rest of the scan. */
  lemma ScanStep(f: Family, t: string, from: nat, start: nat, s: Span, h: Hit, rest: seq<Hit>)
    requires from <= start && NoSpanIn(f, t, from, start)
    requires IsMatch(f, t, start, s) && HitOf(f, t, start, s) == h
    requires RegexScan(f, t, h.end, rest)
    ensures RegexScan(f, t, from, [h] + rest)
  {
    assert ([h] + rest)[1..] == rest;
  }

  // ---------------------------------------------------------------------------------------------
  // The replies, written in pieces that start at their keywords.

  const LoseTen: string := "You " + "lose 10 " + "points"
  const GainAndAward: string := "Gain 5 " + "points" + " and " + "award 3 " + "points"
  const GenericOnly: string := "50 " + "points" + " " + "awarded, " + "20 " + "points" + " " + "deducted"
  const Cancelling: string := "gain 5 " + "points" + ", " + "lose 5 " + "points"
  const MinusFifty: string := "minus 50 " + "points"

  // "You lose 10 points": one deduction, no award.

  lemma LoseTenMatch()
    ensures IsMatch(Deduct, LoseTen, 4, Span("lose", 9, 11, 12, 18))
    ensures HitOf(Deduct, LoseTen, 4, Span("lose", 9, 11, 12, 18)) == Hit(4, 18, 10)
  {
    SliceHasAt(LoseTen, 4, "lose");
    SliceHasAt(LoseTen, 12, "points");
  }

  lemma LoseTenQuiet()
    ensures NoSpanIn(Deduct, LoseTen, 0, 4) && NoSpanIn(Deduct, LoseTen, 18, 18)
    ensures NoSpanIn(Award, LoseTen, 0, 18)
  {
    QuietNoSpan(Deduct, LoseTen, 0, 4);
    assert Quiet(Award, LoseTen, 0, 6);
    assert Quiet(Award, LoseTen, 6, 12);
    assert Quiet(Award, LoseTen, 12, 18);
    QuietChunks(Award, LoseTen, [0, 6, 12, 18]);
    QuietNoSpan(Award, LoseTen, 0, 18);
  }

  /** A single deduction: `You lose 10 points` is worth -10. */
  lemma LoseTenPoints()
    ensures Points(LoseTen) == -10
  {
    LoseTenMatch();
    LoseTenQuiet();
    ScanStep(Deduct, LoseTen, 0, 4, Span("lose", 9, 11, 12, 18), Hit(4, 18, 10), []);
    PointsExplicit(LoseTen, [], [Hit(4, 18, 10)]);
  }

  // "Gain 5 points and award 3 points": two awards, no deduction.

  lemma GainMatch()
    ensures IsMatch(Award, GainAndAward, 0, Span("gain", 5, 6, 7, 13))
    ensures HitOf(Award, GainAndAward, 0, Span("gain", 5, 6, 7, 13)) == Hit(0, 13, 5)
  {
    FoldedSliceHasAt(GainAndAward, 0, "Gain", "gain");
    SliceHasAt(GainAndAward, 7, "points");
  }

  lemma AwardMatch()
    ensures IsMatch(Award, GainAndAward, 18, Span("award", 24, 25, 26, 32))
    ensures HitOf(Award, GainAndAward, 18, Span("award", 24, 25, 26, 32)) == Hit(18, 32, 3)
  {
    SliceHasAt(GainAndAward, 18, "award");
    SliceHasAt(GainAndAward, 26, "points");
  }

  lemma GainAndAwardQuiet()
    ensures NoSpanIn(Award, GainAndAward, 13, 18) && NoSpanIn(Award, GainAndAward, 32, 32)
    ensures NoSpanIn(Deduct, GainAndAward, 0, 32)
  {
    QuietNoSpan(Award, GainAndAward, 13, 18);
    assert Quiet(Deduct, GainAndAward, 0, 6);
    assert Quiet(Deduct, GainAndAward, 6, 12);
    assert Quiet(Deduct, GainAndAward, 12, 18);
    assert Quiet(Deduct, GainAndAward, 18, 24);
    assert Quiet(Deduct, GainAndAward, 24, 32);
    QuietChunks(Deduct, GainAndAward, [0, 6, 12, 18, 24, 32]);
    QuietNoSpan(Deduct, GainAndAward, 0, 32);
  }

  /** Several awards add up. */
  lemma GainFiveAndAwardThree()
    ensures Points(GainAndAward) == 8
  {
    GainMatch();
    AwardMatch();
    GainAndAwardQuiet();
    ScanStep(Award, GainAndAward, 13, 18, Span("award", 24, 25, 26, 32), Hit(18, 32, 3), []);
    ScanStep(Award, GainAndAward, 0, 0, Span("gain", 5, 6, 7, 13), Hit(0, 13, 5), [Hit(18, 32, 3)]);
    PointsExplicit(GainAndAward, [Hit(0, 13, 5), Hit(18, 32, 3)], []);
  }

  // "50 points awarded, 20 points deducted": `awarded` and `deducted` are not followed by a number.

  /** `awarded` holds `award` followed by a letter. */
  lemma AwardedIsNoAward()
    ensures NoSpanIn(Award, GenericOnly, 10, 11)
  {
    SliceHasAt(GenericOnly, 10, "award");
    WordContinues(Award, GenericOnly, 10, "award");
  }

  lemma GenericOnlyNoAwardBefore()
    ensures NoSpanIn(Award, GenericOnly, 0, 11)
  {
    assert Quiet(Award, GenericOnly, 0, 5);
    assert Quiet(Award, GenericOnly, 5, 10);
    QuietChunks(Award, GenericOnly, [0, 5, 10]);
    QuietNoSpan(Award, GenericOnly, 0, 10);
    AwardedIsNoAward();
  }

  lemma GenericOnlyNoAwardAfter()
    ensures NoSpanIn(Award, GenericOnly, 11, 37)
  {
    assert Quiet(Award, GenericOnly, 11, 16);
    assert Quiet(Award, GenericOnly, 16, 22);
    assert Quiet(Award, GenericOnly, 22, 28);
    assert Quiet(Award, GenericOnly, 28, 33);
    assert Quiet(Award, GenericOnly, 33, 37);
    QuietChunks(Award, GenericOnly, [11, 16, 22, 28, 33, 37]);
    QuietNoSpan(Award, GenericOnly, 11, 37);
  }

  lemma GenericOnlyNoDeductionBefore()
    ensures NoSpanIn(Deduct, GenericOnly, 0, 15)
  {
    assert Quiet(Deduct, GenericOnly, 0, 5);
    assert Quiet(Deduct, GenericOnly, 5, 10);
    assert Quiet(Deduct, GenericOnly, 10, 14);
    QuietChunks(Deduct, GenericOnly, [0, 5, 10, 14]);
    QuietNoSpan(Deduct, GenericOnly, 0, 14);
    KeywordBreaks(Deduct, GenericOnly, 14, "deduct", 3);
  }

  /** `deducted` holds `deduct` followed by a letter. */
  lemma DeductedIsNoDeduction()
    ensures NoSpanIn(Deduct, GenericOnly, 29, 30)
  {
    SliceHasAt(GenericOnly, 29, "deduct");
    WordContinues(Deduct, GenericOnly, 29, "deduct");
  }

  lemma GenericOnlyNoDeductionAfter()
    ensures NoSpanIn(Deduct, GenericOnly, 15, 37)
  {
    assert Quiet(Deduct, GenericOnly, 15, 20);
    assert Quiet(Deduct, GenericOnly, 20, 25);
    assert Quiet(Deduct, GenericOnly, 25, 29);
    QuietChunks(Deduct, GenericOnly, [15, 20, 25, 29]);
    QuietNoSpan(Deduct, GenericOnly, 15, 29);
    DeductedIsNoDeduction();
    QuietNoSpan(Deduct, GenericOnly, 30, 37);
  }

  lemma FiftyMention()
    ensures IsMatch(Generic, GenericOnly, 0, Span("", 0, 2, 3, 9))
    ensures HitOf(Generic, GenericOnly, 0, Span("", 0, 2, 3, 9)) == Hit(0, 9, 50)
  {
    SliceHasAt(GenericOnly, 3, "points");
  }

  lemma TwentyMention()
    ensures IsMatch(Generic, GenericOnly, 19, Span("", 19, 21, 22, 28))
    ensures HitOf(Generic, GenericOnly, 19, Span("", 19, 21, 22, 28)) == Hit(19, 28, 20)
  {
    SliceHasAt(GenericOnly, 22, "points");
  }

  lemma GenericOnlyQuiet()
    ensures NoSpanIn(Generic, GenericOnly, 9, 19) && NoSpanIn(Generic, GenericOnly, 28, 37)
  {
    assert Quiet(Generic, GenericOnly, 9, 14);
    assert Quiet(Generic, GenericOnly, 14, 19);
    QuietChunks(Generic, GenericOnly, [9, 14, 19]);
    QuietNoSpan(Generic, GenericOnly, 9, 19);
    assert Quiet(Generic, GenericOnly, 28, 33);
    assert Quiet(Generic, GenericOnly, 33, 37);
    QuietChunks(Generic, GenericOnly, [28, 33, 37]);
    QuietNoSpan(Generic, GenericOnly, 28, 37);
  }

  /** No explicit phrase, so the generic mentions are summed, both of them positively. */
  lemma GenericMentionsAreSummed()
    ensures Points(GenericOnly) == 70
  {
    GenericOnlyNoAwardBefore();
    GenericOnlyNoAwardAfter();
    GenericOnlyNoDeductionBefore();
    GenericOnlyNoDeductionAfter();
    FiftyMention();
    TwentyMention();
    GenericOnlyQuiet();
    ScanStep(Generic, GenericOnly, 9, 19, Span("", 19, 21, 22, 28), Hit(19, 28, 20), []);
    ScanStep(Generic, GenericOnly, 0, 0, Span("", 0, 2, 3, 9), Hit(0, 9, 50), [Hit(19, 28, 20)]);
    PointsFallback(GenericOnly, [], [], [Hit(0, 9, 50), Hit(19, 28, 20)]);
  }

  // "gain 5 points, lose 5 points": an award and a deduction that cancel.

  lemma CancellingAward()
    ensures IsMatch(Award, Cancelling, 0, Span("gain", 5, 6, 7, 13))
    ensures HitOf(Award, Cancelling, 0, Span("gain", 5, 6, 7, 13)) == Hit(0, 13, 5)
  {
    SliceHasAt(Cancelling, 0, "gain");
    SliceHasAt(Cancelling, 7, "points");
  }

  lemma CancellingDeduction()
    ensures IsMatch(Deduct, Cancelling, 15, Span("lose", 20, 21, 22, 28))
    ensures HitOf(Deduct, Cancelling, 15, Span("lose", 20, 21, 22, 28)) == Hit(15, 28, 5)
  {
    SliceHasAt(Cancelling, 15, "lose");
    SliceHasAt(Cancelling, 22, "points");
  }

  lemma CancellingGeneric()
    ensures IsMatch(Generic, Cancelling, 5, Span("", 5, 6, 7, 13))
    ensures HitOf(Generic, Cancelling, 5, Span("", 5, 6, 7, 13)) == Hit(5, 13, 5)
    ensures IsMatch(Generic, Cancelling, 20, Span("", 20, 21, 22, 28))
    ensures HitOf(Generic, Cancelling, 20, Span("", 20, 21, 22, 28)) == Hit(20, 28, 5)
  {
    SliceHasAt(Cancelling, 7, "points");
    SliceHasAt(Cancelling, 22, "points");
  }

  lemma CancellingQuiet()
    ensures NoSpanIn(Award, Cancelling, 13, 28) && NoSpanIn(Deduct, Cancelling, 0, 15)
    ensures NoSpanIn(Generic, Cancelling, 0, 5) && NoSpanIn(Generic, Cancelling, 13, 20)
    ensures NoSpanIn(Award, Cancelling, 28, 28) && NoSpanIn(Deduct, Cancelling, 28, 28)
    ensures NoSpanIn(Generic, Cancelling, 28, 28)
  {
    assert Quiet(Award, Cancelling, 13, 18);
    assert Quiet(Award, Cancelling, 18, 23);
    assert Quiet(Award, Cancelling, 23, 28);
    QuietChunks(Award, Cancelling, [13, 18, 23, 28]);
    QuietNoSpan(Award, Cancelling, 13, 28);
    assert Quiet(Deduct, Cancelling, 0, 5);
    assert Quiet(Deduct, Cancelling, 5, 10);
    assert Quiet(Deduct, Cancelling, 10, 15);
    QuietChunks(Deduct, Cancelling, [0, 5, 10, 15]);
    QuietNoSpan(Deduct, Cancelling, 0, 15);
    QuietNoSpan(Generic, Cancelling, 0, 5);
    assert Quiet(Generic, Cancelling, 13, 17);
    assert Quiet(Generic, Cancelling, 17, 20);
    QuietChunks(Generic, Cancelling, [13, 17, 20]);
    QuietNoSpan(Generic, Cancelling, 13, 20);
  }

  /** An award and a deduction that cancel fall back to the generic sum, which counts both numbers
      positively: the reply is worth 10 points, not 0. */
  lemma CancellingPhrasesAreCountedTwice()
    ensures Points(Cancelling) == 10
  {
    CancellingAward();
    CancellingDeduction();
    CancellingGeneric();
    CancellingQuiet();
    ScanStep(Award, Cancelling, 0, 0, Span("gain", 5, 6, 7, 13), Hit(0, 13, 5), []);
    ScanStep(Deduct, Cancelling, 0, 15, Span("lose", 20, 21, 22, 28), Hit(15, 28, 5), []);
    ScanStep(Generic, Cancelling, 13, 20, Span("", 20, 21, 22, 28), Hit(20, 28, 5), []);
    ScanStep(Generic, Cancelling, 0, 5, Span("", 5, 6, 7, 13), Hit(5, 13, 5), [Hit(20, 28, 5)]);
    PointsFallback(Cancelling, [Hit(0, 13, 5)], [Hit(15, 28, 5)], [Hit(5, 13, 5), Hit(20, 28, 5)]);
  }

  // "minus 50 points".

  lemma MinusFiftyMatch()
    ensures IsMatch(Deduct, MinusFifty, 0, Span("minus", 6, 8, 9, 15))
    ensures HitOf(Deduct, MinusFifty, 0, Span("minus", 6, 8, 9, 15)) == Hit(0, 15, 50)
  {
    SliceHasAt(MinusFifty, 0, "minus");
    SliceHasAt(MinusFifty, 9, "points");
  }

  lemma MinusFiftyQuiet()
    ensures NoSpanIn(Award, MinusFifty, 0, 15)
  {
    assert Quiet(Award, MinusFifty, 0, 5);
    assert Quiet(Award, MinusFifty, 5, 10);
    assert Quiet(Award, MinusFifty, 10, 15);
    QuietChunks(Award, MinusFifty, [0, 5, 10, 15]);
    QuietNoSpan(Award, MinusFifty, 0, 15);
  }

  /** `minus 50 points` is worth -50. */
  lemma MinusFiftyPoints()
    ensures Points(MinusFifty) == -50
  {
    MinusFiftyMatch();
    MinusFiftyQuiet();
    ScanStep(Deduct, MinusFifty, 0, 0, Span("minus", 6, 8, 9, 15), Hit(0, 15, 50), []);
    PointsExplicit(MinusFifty, [], [Hit(0, 15, 50)]);
  }
}
