/** Whole sessions in the laboratory: sequences of events driven through a fresh Lab, with what the
    player ends up seeing. */
module Sessions {
  import opened Wrappers
  import opened Catalog
  import opened Unlock
  import opened Text
  import opened Registry
  import opened Conversation
  import opened PointExamples
  import Brew
  import opened Laboratory

  /** One round at the cauldron: add an ingredient to the empty cauldron, stir, succeed, and empty it
      again. The score gains the brew bonus and the registry records the title. */
  method BrewOnce(lab: Lab, ing: Ingredient, o: Brew.Outcome)
    requires lab.Valid() && lab.potion == Brew.Empty
    modifies lab
    ensures lab.Valid() && lab.potion == Brew.Empty
    ensures lab.housePoints == old(lab.housePoints) + BrewBonus
    ensures lab.mastered == Record(old(lab.mastered), o.title, o.color)
    ensures lab.notification == NotificationAfter(old(lab.lastUnlocked), lab.housePoints, old(lab.notification))
    ensures lab.messages == old(lab.messages) && lab.isTyping == old(lab.isTyping)
  {
    lab.AddIngredient(ing);
    var started := lab.StirPotion();
    lab.BrewSucceeded(o);
    lab.EmptyCauldron();
  }

  /** Brewing alone reaches the first unlock: the eighth successful brew brings the score to 200,
      and only then is the first unlockable ingredient announced. */
  method BrewToFirstUnlock(greeting: string, ing: Ingredient, o: Brew.Outcome)
    returns (brews: nat, score: int, shown: Option<string>)
    ensures brews == 8 && score == PointsPerTier
    ensures shown == Some(UnlockText(Unlockable[0]))
  {
    var lab := new Lab(greeting);
    brews := 0;
    while lab.housePoints < PointsPerTier
      invariant lab.Valid() && lab.potion == Brew.Empty
      invariant brews <= 8 && lab.housePoints == BrewBonus * brews
      invariant lab.notification == if brews < 8 then None else Some(UnlockText(Unlockable[0]))
      decreases PointsPerTier - lab.housePoints
    {
      BrewOnce(lab, ing, o);
      brews := brews + 1;
    }
    score := lab.housePoints;
    shown := lab.notification;
  }

  /** A reply that takes 50 points from a fresh lab leaves the score negative, announces nothing and
      keeps the shelf at the base catalog; the transcript holds greeting, question and reply. */
  method PenaltyReply(greeting: string) returns (score: int, shelf: seq<Ingredient>, transcript: nat)
    ensures score == -50 && shelf == Initial && transcript == 3
  {
    var lab := new Lab(greeting);
    var sent := lab.SendMessage("Is this safe?");
    assert !IsBlank("Is this safe?");
    MinusFiftyPoints();
    lab.ReceiveReply(Answered(MinusFifty));
    ShelfBelowFirstTier(lab.housePoints);
    score, shelf, transcript := lab.housePoints, Shelf(lab.housePoints), |lab.messages|;
  }

  /** A complete potion can be stirred again and brews again for another 25 points; a second title
      that differs from the first only in letter case adds no registry entry. */
  method RebrewCaseVariant(greeting: string, ing: Ingredient) returns (score: int, registry: seq<Mastered>)
    ensures score == 2 * BrewBonus
    ensures registry == [Mastered("Tonic", "#00ff00")]
  {
    var lab := new Lab(greeting);
    lab.AddIngredient(ing);
    var started := lab.StirPotion();
    lab.BrewSucceeded(Brew.Outcome("Tonic", "A clear draught.", "#00ff00"));
    started := lab.StirPotion();
    assert started;
    lab.BrewSucceeded(Brew.Outcome("TONIC", "A clear draught.", "#ff0000"));
    assert Lower("Tonic") == Lower("TONIC");
    CaseVariantsRegisterOnce([], "Tonic", "#00ff00", "TONIC", "#ff0000");
    score, registry := lab.housePoints, lab.mastered;
  }
}
