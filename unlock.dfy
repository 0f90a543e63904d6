/** The unlock policy: every 200 house points put one more unlockable ingredient on the shelf, and a
    rise into a new tier announces the ingredient of that tier. */
module Unlock {
  import opened Wrappers
  import opened Catalog

  /** Points needed per tier. */
  const PointsPerTier: nat := 200

  function Min(a: int, b: int): int {
    if a <= b then a else b
  }

  /** The unlock count, `Math.floor(Math.max(0, housePoints) / 200)`: the number of whole 200-point
      steps in the score, a negative score counting as none. */
  function Tier(score: int): (t: nat)
    ensures score <= 0 ==> t == 0
    ensures score > 0 ==> t * PointsPerTier <= score < (t + 1) * PointsPerTier
  {
    if score <= 0 then 0 else score / PointsPerTier
  }

  /** The `availableIngredients` memo: the base catalog, then the first `Tier(score)` unlockable
      ingredients (no more than the catalog holds, as `slice` clips). */
  function Shelf(score: int): (r: seq<Ingredient>)
    ensures |r| == |Initial| + Min(|Unlockable|, Tier(score))
    ensures r[..|Initial|] == Initial
    ensures r[|Initial|..] == Unlockable[..Min(|Unlockable|, Tier(score))]
  {
    Initial + Unlockable[..Min(|Unlockable|, Tier(score))]
  }

  /** The unlock tier never falls as the score rises. */
  lemma TierMonotone(s1: int, s2: int)
    requires s1 <= s2
    ensures Tier(s1) <= Tier(s2)
  {
    if s1 > 0 {
      assert Tier(s1) * PointsPerTier <= s2 < (Tier(s2) + 1) * PointsPerTier;
    }
  }

  /** The tier is determined by the score alone: it is the one `t` with `200 t <= max(0, s) < 200 (t + 1)`. */
  lemma TierUnique(score: int, t: nat)
    requires t * PointsPerTier <= (if score < 0 then 0 else score) < (t + 1) * PointsPerTier
    ensures Tier(score) == t
  {
  }

  /** A higher score offers the same shelf with possibly more ingredients at the end. */
  lemma ShelfPrefixMonotone(s1: int, s2: int)
    requires s1 <= s2
    ensures |Shelf(s1)| <= |Shelf(s2)| && Shelf(s1) == Shelf(s2)[..|Shelf(s1)|]
  {
    TierMonotone(s1, s2);
    var m1, m2 := Min(|Unlockable|, Tier(s1)), Min(|Unlockable|, Tier(s2));
    assert Unlockable[..m1] == Unlockable[..m2][..m1];
  }

  /** Below 200 points, a negative score included, only the base ingredients are offered. */
  lemma ShelfBelowFirstTier(score: int)
    requires score < PointsPerTier
    ensures Shelf(score) == Initial
  {
    assert Tier(score) == 0;
  }

  /** From 1600 points on the whole catalog is offered. */
  lemma ShelfComplete(score: int)
    requires score >= |Unlockable| * PointsPerTier
    ensures Shelf(score) == All
  {
    TierMonotone(|Unlockable| * PointsPerTier, score);
    assert Tier(|Unlockable| * PointsPerTier) == |Unlockable|;
  }

  /** An ingredient is offered exactly when it is a base ingredient or one of the first unlocked ones. */
  lemma ShelfMembership(score: int, ing: Ingredient)
    ensures ing in Shelf(score) <==>
      (ing in Initial || exists k :: 0 <= k < Min(|Unlockable|, Tier(score)) && Unlockable[k] == ing)
  {
    var m := Min(|Unlockable|, Tier(score));
    var r := Shelf(score);
    if ing in r {
      var i :| 0 <= i < |r| && r[i] == ing;
      if i >= |Initial| {
        assert Unlockable[i - |Initial|] == ing;
      }
    }
    if exists k :: 0 <= k < m && Unlockable[k] == ing {
      var k :| 0 <= k < m && Unlockable[k] == ing;
      assert r[|Initial| + k] == ing;
    }
  }

  /** Everything on the shelf is in the catalog. */
  lemma ShelfInCatalog(score: int, ing: Ingredient)
    requires ing in Shelf(score)
    ensures ing in All
  {
    var r := Shelf(score);
    var i :| 0 <= i < |r| && r[i] == ing;
    if i < |Initial| {
      assert All[i] == ing;
    } else {
      assert All[i] == Unlockable[i - |Initial|] == ing;
    }
  }

  // ---------------------------------------------------------------------------------------------
  // The unlock notification.

  /** The notification text. The sparkle emoji that opens it in the source was stored with its UTF-8
      bytes read as Windows-1252, so what is shown is the three characters U+00E2 U+0153 U+00A8. */
  function UnlockText(ing: Ingredient): string {
    "\U{00E2}\U{0153}\U{00A8} Unlocked: " + ing.name + " " + ing.icon
  }

  /** What the unlock effect announces when the score becomes `score` after `lastTier` was observed:
      `UNLOCKABLE_INGREDIENTS[tier - 1]` when the tier rose, nothing when it did not or when that
      entry does not exist. */
  function Announcement(lastTier: nat, score: int): (r: Option<string>)
    ensures r.Some? <==> lastTier < Tier(score) <= |Unlockable|
    ensures r.Some? ==> r.value == UnlockText(Unlockable[Tier(score) - 1])
  {
    var t := Tier(score);
    if t > lastTier && t - 1 < |Unlockable| then Some(UnlockText(Unlockable[t - 1])) else None
  }

  /** The notification on screen once the unlock effect has run: the announcement if there is one,
      otherwise whatever was shown before. */
  function NotificationAfter(lastTier: nat, score: int, shown: Option<string>): Option<string> {
    match Announcement(lastTier, score)
    case Some(text) => Some(text)
    case None => shown
  }

  /** A jump over several tiers announces one ingredient only, the one of the tier reached, never
      those of the tiers skipped; it is the last ingredient the shelf now holds. */
  lemma JumpAnnouncesOnlyTheLast(s1: int, s2: int)
    requires 0 < Tier(s2) <= |Unlockable| && Tier(s1) < Tier(s2)
    ensures Announcement(Tier(s1), s2) == Some(UnlockText(Unlockable[Tier(s2) - 1]))
    ensures Shelf(s2)[|Shelf(s2)| - 1] == Unlockable[Tier(s2) - 1]
  {
  }

  /** A fall in score announces nothing and lowers the observed tier, so climbing back announces again. */
  lemma AnnounceAgainAfterFall(high: int, low: int)
    requires low < high && 0 < Tier(high) <= |Unlockable| && Tier(low) < Tier(high)
    ensures Announcement(Tier(high), low) == None
    ensures Announcement(Tier(low), high).Some?
  {
    TierMonotone(low, high);
  }
}
