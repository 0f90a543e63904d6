/** The potion in the cauldron (`PotionState`) and the updaters the lab's handlers apply to it:
    adding an ingredient, starting to stir, the outcome of a brew, emptying the cauldron, and the
    colour the liquid is drawn in. */
module Brew {
  import opened Wrappers
  import opened Catalog

  /** At most this many ingredients go into one potion. */
  const MaxIngredients: nat := 5

  /** The liquid colour of an empty, unbrewed cauldron. */
  const EmptyColor: string := "#2d3748"

  /** PotionState: the ingredients in the order they were added, the two flags, and the result fields,
      which stay undefined (None) until a brew succeeds. */
  datatype PotionState = PotionState(
    ingredients: seq<Ingredient>,
    isStirring: bool,
    isComplete: bool,
    resultTitle: Option<string>,
    resultDescription: Option<string>,
    resultColor: Option<string>)

  /** What a successful brew request yields: the three string fields the response schema requires. */
  datatype Outcome = Outcome(title: string, description: string, color: string)

  /** The cauldron at start-up and after "Empty Cauldron". */
  const Empty: PotionState := PotionState([], false, false, None, None, None)

  /** What every reachable potion satisfies: at most five ingredients, never stirring and complete at
      once, a stirring or complete potion has ingredients, and a complete one has its result. */
  predicate Valid(p: PotionState) {
    && |p.ingredients| <= MaxIngredients
    && !(p.isStirring && p.isComplete)
    && (p.isStirring || p.isComplete ==> |p.ingredients| > 0)
    && (p.isComplete ==> p.resultTitle.Some? && p.resultDescription.Some? && p.resultColor.Some?)
  }

  // ---------------------------------------------------------------------------------------------
  // The transitions.

  /** The guard of addIngredient: the potion is not complete and holds fewer than five ingredients.
      Stirring does not block it. */
  predicate CanAdd(p: PotionState) {
    !p.isComplete && |p.ingredients| < MaxIngredients
  }

  /** addIngredient: when the guard holds, `ing` goes at the end of the ingredient list; otherwise
      nothing happens. */
  function AddIngredient(p: PotionState, ing: Ingredient): (r: PotionState)
    ensures |r.ingredients| == |p.ingredients| + (if CanAdd(p) then 1 else 0)
    ensures r.ingredients[..|p.ingredients|] == p.ingredients
    ensures CanAdd(p) ==> r.ingredients[|p.ingredients|] == ing
    ensures r == p.(ingredients := r.ingredients)
  {
    if CanAdd(p) then p.(ingredients := p.ingredients + [ing]) else p
  }

  /** The guard of stirPotion: there is an ingredient and no brew is running. Completion does not
      block it. */
  predicate CanStir(p: PotionState) {
    |p.ingredients| > 0 && !p.isStirring
  }

  /** The start of stirPotion: when the guard holds the potion is stirring and no longer complete,
      everything else kept; otherwise nothing happens. */
  function Stir(p: PotionState): (r: PotionState)
    ensures CanStir(p) ==> r.isStirring && !r.isComplete
    ensures r.ingredients == p.ingredients
    ensures r.resultTitle == p.resultTitle && r.resultDescription == p.resultDescription
    ensures r.resultColor == p.resultColor
    ensures !CanStir(p) ==> r == p
  {
    if CanStir(p) then p.(isStirring := true, isComplete := false) else p
  }

  /** The potion updater of a successful brew: stirring stops, the potion is complete and carries the
      outcome's title, description and colour; the ingredients stay. */
  function Brewed(p: PotionState, o: Outcome): (r: PotionState)
    ensures !r.isStirring && r.isComplete && r.ingredients == p.ingredients
    ensures r.resultTitle == Some(o.title) && r.resultDescription == Some(o.description)
    ensures r.resultColor == Some(o.color)
  {
    p.(isStirring := false, isComplete := true,
       resultTitle := Some(o.title), resultDescription := Some(o.description), resultColor := Some(o.color))
  }

  /** The potion updater of a failed brew: stirring stops and nothing else changes. */
  function StirFailed(p: PotionState): (r: PotionState)
    ensures !r.isStirring && r == p.(isStirring := false)
  {
    p.(isStirring := false)
  }

  /** currentLiquidColor: the result colour once complete (undefined, None, if the result has none),
      otherwise the colour of the last ingredient added, or the dark empty colour. */
  function LiquidColor(p: PotionState): (r: Option<string>)
    ensures p.isComplete ==> r == p.resultColor
    ensures !p.isComplete && |p.ingredients| > 0 ==> r == Some(p.ingredients[|p.ingredients| - 1].color)
    ensures !p.isComplete && |p.ingredients| == 0 ==> r == Some(EmptyColor)
  {
    if p.isComplete then p.resultColor
    else if |p.ingredients| > 0 then Some(p.ingredients[|p.ingredients| - 1].color)
    else Some(EmptyColor)
  }

  // ---------------------------------------------------------------------------------------------
  // The invariant is kept.

  lemma EmptyValid()
    ensures Valid(Empty) && Empty.ingredients == [] && !Empty.isStirring && !Empty.isComplete
  {
  }

  /** Every transition, taken where it can happen, keeps a valid potion valid; in particular the
      ingredient list never grows beyond five. */
  lemma TransitionsKeepValid(p: PotionState, ing: Ingredient, o: Outcome)
    requires Valid(p)
    ensures Valid(AddIngredient(p, ing)) && |AddIngredient(p, ing).ingredients| <= MaxIngredients
    ensures Valid(Stir(p))
    ensures p.isStirring ==> Valid(Brewed(p, o)) && Valid(StirFailed(p))
  {
  }

  /** A valid potion always has a colour to draw. */
  lemma ValidHasColor(p: PotionState)
    requires Valid(p)
    ensures LiquidColor(p).Some?
  {
  }

  // ---------------------------------------------------------------------------------------------
  // The four phases of a brew.

  /** Idle (empty cauldron), Loaded (ingredients, not brewing), Brewing, Complete. */
  datatype Phase = Idle | Loaded | Brewing | Complete

  function PhaseOf(p: PotionState): Phase {
    if p.isStirring then Brewing
    else if p.isComplete then Complete
    else if |p.ingredients| == 0 then Idle
    else Loaded
  }

  /** Adding fills an idle or loaded cauldron, and also a brewing one; a complete potion refuses it. */
  lemma AddPhases(p: PotionState, ing: Ingredient)
    requires Valid(p)
    ensures PhaseOf(p) == Idle ==> PhaseOf(AddIngredient(p, ing)) == Loaded
    ensures PhaseOf(p) == Loaded ==> PhaseOf(AddIngredient(p, ing)) == Loaded
    ensures PhaseOf(p) == Brewing ==>
              PhaseOf(AddIngredient(p, ing)) == Brewing
              && (|p.ingredients| < MaxIngredients ==> AddIngredient(p, ing).ingredients == p.ingredients + [ing])
    ensures PhaseOf(p) == Complete ==> AddIngredient(p, ing) == p
  {
    if PhaseOf(p) == Brewing && |p.ingredients| < MaxIngredients {
      assert CanAdd(p);
    }
  }

  /** Stirring starts a brew from a loaded cauldron and also from a complete potion; an empty cauldron
      or a running brew ignore it. */
  lemma StirPhases(p: PotionState)
    requires Valid(p)
    ensures PhaseOf(p) == Idle ==> Stir(p) == p
    ensures PhaseOf(p) == Loaded ==> PhaseOf(Stir(p)) == Brewing
    ensures PhaseOf(p) == Complete ==> PhaseOf(Stir(p)) == Brewing
    ensures PhaseOf(p) == Brewing ==> Stir(p) == p
  {
  }

  /** A brew ends complete on success and back in Loaded, ingredients kept, on failure. */
  lemma OutcomePhases(p: PotionState, o: Outcome)
    requires Valid(p) && PhaseOf(p) == Brewing
    ensures PhaseOf(Brewed(p, o)) == Complete
    ensures PhaseOf(StirFailed(p)) == Loaded && StirFailed(p).ingredients == p.ingredients
  {
  }

  /** A sixth ingredient is refused: a full cauldron stays as it is. */
  lemma SixthIngredientRefused(p: PotionState, ing: Ingredient)
    requires |p.ingredients| == MaxIngredients
    ensures AddIngredient(p, ing) == p
  {
  }

  /** A second stir while the first brew runs changes nothing: one brew at a time. */
  lemma StirTwiceIsStirOnce(p: PotionState)
    ensures Stir(Stir(p)) == Stir(p)
  {
  }

  /** While a brew runs and after it fails, the liquid shows the colour of the last ingredient added. */
  lemma BrewingShowsLastIngredient(p: PotionState)
    requires Valid(p) && p.isStirring
    ensures LiquidColor(p) == Some(p.ingredients[|p.ingredients| - 1].color)
    ensures LiquidColor(StirFailed(p)) == LiquidColor(p)
  {
  }
}
