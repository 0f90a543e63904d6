/** The static ingredient catalog: four ingredients on the shelf from the start and eight that
    unlock one at a time, in this order. */
module Catalog {

  /** An ingredient of the shelf; the catalog never changes at run time. */
  datatype Ingredient = Ingredient(id: string, name: string, color: string, icon: string, description: string)

  /** INITIAL_INGREDIENTS. */
  const Initial: seq<Ingredient> := [
    Ingredient("1", "Dragon Scale", "#ff4d4d", "\U{1F525}", "Adds heat and powerful energy."),
    Ingredient("2", "Moonstone Powder", "#a5f3fc", "\U{1F319}", "Gives the potion clarity and light."),
    Ingredient("3", "Root of Mandrake", "#78350f", "\U{1F331}", "Brings strong, earthy magic."),
    Ingredient("4", "Phoenix Feather", "#fbbf24", "\U{1F985}", "Helps things feel new and hopeful.")
  ]

  /** UNLOCKABLE_INGREDIENTS, in unlock order. */
  const Unlockable: seq<Ingredient> := [
    Ingredient("5", "Dried Pixie Dust", "#d8b4fe", "\U{2728}", "Adds a bit of fun and floating magic."),
    Ingredient("6", "Swamp Water", "#365314", "\U{1F9EA}", "A mysterious, dark base for the brew."),
    Ingredient("7", "Hourglass Sand", "#eab308", "\U{23F3}", "Gives the potion a touch of time magic."),
    Ingredient("8", "Thunderbird Tail", "#60a5fa", "\U{26A1}", "Infuses the potion with storm energy."),
    Ingredient("9", "Unicorn Hair", "#ffffff", "\U{1F984}", "Pure, healing magical core."),
    Ingredient("10", "Void Essence", "#1e1b4b", "\U{1F300}", "Concentrated mystery of the cosmos."),
    Ingredient("11", "Golden Snitch Wing", "#fcd34d", "\U{1F3D2}", "Adds speed and unpredictable flight."),
    Ingredient("12", "Kraken Ink", "#0f172a", "\U{1F419}", "Deep sea shadows and ancient depth.")
  ]

  /** Every ingredient there is. */
  const All: seq<Ingredient> := Initial + Unlockable

  /** No two ingredients of `s` share an identifier. */
  predicate DistinctIds(s: seq<Ingredient>) {
    forall i, j :: 0 <= i < j < |s| ==> s[i].id != s[j].id
  }

  /** The catalog has 4 base and 8 unlockable ingredients, twelve ingredients with distinct identifiers. */
  lemma CatalogShape()
    ensures |Initial| == 4 && |Unlockable| == 8 && |All| == 12
    ensures DistinctIds(All)
    ensures forall k :: 0 <= k < |All| ==> All[k].id == IdOf(k + 1)
  {
    forall k | 0 <= k < |All| ensures All[k].id == IdOf(k + 1) {
      if k < 4 {
      } else {
        assert All[k] == Unlockable[k - 4];
      }
    }
  }

  /** The decimal spelling of the identifiers "1" .. "12". */
  function IdOf(n: nat): string
    requires 1 <= n <= 12
  {
    if n < 10 then [('0' as int + n) as char] else ['1', ('0' as int + n - 10) as char]
  }
}
