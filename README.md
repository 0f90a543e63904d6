# Wizard Lab: the game rules, verified

Wizard Lab is a single-page React game. A student chats with a wizard tutor who awards and deducts
house points in free text. They also brew potions in a cauldron from a shelf of ingredients, and the
shelf grows as the score climbs. This project models the game logic of the `App` component in Dafny
and proves its rules:

- **Global search** (`GlobalScan`). `RegExp.prototype.exec` with the `g` flag, for any pattern:
  each call reports the leftmost match from `lastIndex` on and the next resumes where it ended. The
  loop `while ((match = re.exec(text)) !== null)` is proved to find exactly the global scan.
- **Point extraction** (`PointParser`). Three case-insensitive global regular expressions scan the
  tutor's reply: award, deduction and bare-number. The model has a declarative "the pattern matches
  here, divided like this" predicate, a deterministic matcher proved equal to it, and the `exec`
  loops of `parsePointsFromText`, proved to compute awards minus deductions. The generic sum is used
  only when that difference is zero.
- **Unlocking** (`Catalog`, `Unlock`). The ingredient catalog, the unlock tier
  `floor(max(0, score) / 200)`, the shelf it offers, and the announcement the unlock effect makes.
- **The potion** (`Brew`). `PotionState` and the updates applied by each lab handler: adding,
  stirring, a brew's success or failure, and emptying. Also the colour the liquid is drawn in.
- **The mastered-potion registry** (`Registry`). Append-only, and deduplicated by title ignoring
  letter case.
- **The conversation** (`Conversation`). The blank-input guard, the text of the reply, and the point
  change it carries.
- **The component state** (`Laboratory.Lab`). A class whose fields are the component's state
  variables. It has one method per event: a click, a network response, a timer. Every method keeps
  the invariant `Valid()` and states its whole new state through the functions above.
- **Sessions** (`Sessions`). Event sequences driven through a fresh `Lab`, with the outcome proved.
- **Worked examples** (`PointExamples`). The parser's result on concrete replies, proved from the
  regular-expression semantics.

The score is an unbounded integer. A network call or a timer is an event whose outcome is a
parameter: `Reply` for the chat, `Brew.Outcome` or a failure for a brew, and the expiry of the
notification timer.

## Model

| member | source | states |
|---|---|---|
| PointParser.MatchAtComplete | App.tsx:102-104 | every way a pattern can match at a position (`IsMatch`) is found by the deterministic matcher, with the same end and the same captured number |
| PointParser.MatchAtSound | App.tsx:102-104 | every match the matcher reports is a genuine match of the regular expression |
| PointParser.MatchAtNone | App.tsx:102-104 | the matcher finds nothing at a position exactly when the regular expression cannot match there |
| PointParser.KeywordsExclusive | App.tsx:102-103 | at most one alternative of a keyword group fits at a position, so the alternation's choice is never ambiguous |
| PointParser.SuffixStartsWithLetter | App.tsx:102-104 | the `\s*` and `(\d+)` runs are maximal: the suffix starts on a non-space, non-digit, and `points` and `house points` exclude each other |
| PointParser.SkipSpaces | App.tsx:102-104 | the `\s*` run: every skipped character is white space and the next one is not |
| PointParser.SkipDigits | App.tsx:102-104 | the `(\d+)` run: every skipped character is a digit and the next one is not |
| GlobalScan.Next | App.tsx:107-110 | `exec` from `lastIndex` reports a match that starts at or after `lastIndex`, ends inside the text, and is what the pattern yields at its start |
| GlobalScan.NextLeftmost | App.tsx:107-110 | `exec` from `lastIndex` returns the leftmost match: none starts between `lastIndex` and it; no result means no match in the rest of the text |
| GlobalScan.NextIs | App.tsx:107-110 | a match with no match before it from `lastIndex` on is the one `exec` returns |
| GlobalScan.NextNone | App.tsx:107-110 | with no match in the rest of the text, `exec` returns null |
| GlobalScan.AllIsScan | App.tsx:107-110 | the matches of the `while (exec)` loop form a global scan: each is leftmost from where the previous one ended, so matches never overlap, and none is left after the last |
| GlobalScan.ScanIsAll | App.tsx:107-110 | the global scan is unique: any list satisfying that description is the one the loop finds |
| GlobalScan.AllAgree | App.tsx:107-110 | two patterns that agree at every position find the same matches |
| GlobalScan.Exec | App.tsx:107-110 | `re.exec` with a given `lastIndex`, trying each position in turn, returns the leftmost match at or after it, or null if there is none |
| PointParser.NoSpanIffNone | App.tsx:102-104 | the matcher finds nothing in a stretch exactly when the regular expression matches nowhere in it |
| PointParser.AttemptIffMatch | App.tsx:102-104 | the matcher reports a hit at a position exactly when the regular expression matches there with that end and captured number |
| PointParser.RegexScanIsScan | App.tsx:107-110 | the global scan described with the regular expression and the one described with the matcher are the same lists |
| PointParser.MatchesAreRegexScan | App.tsx:107-110 | the matches the loops find are the global scan of the regular expression over the text |
| PointParser.RegexScanIsMatches | App.tsx:107-110 | any list that is a global scan of the regular expression is the list the loops find |
| PointParser.ParsePoints | App.tsx:101-113 | the three `exec` loops leave `totalChange == Points(text)`: deductions subtracted, awards added, generic matches summed only on a zero total |
| PointParser.PointsExplicit | App.tsx:105-108 | when the award and deduction scans differ in sum, the result is the award sum minus the deduction sum |
| PointParser.PointsFallback | App.tsx:104-111 | when awards and deductions cancel (none at all included), the result is the sum of the generic scan and is non-negative |
| PointParser.MatchEndsInPoints | App.tsx:102-104 | every match ends in the word `points` |
| PointParser.NoPointsNoMatches | App.tsx:102-104 | text without `points` anywhere has no match of any family |
| PointParser.PointsNeedTheWordPoints | App.tsx:101-113 | text without `points` anywhere yields 0 |
| PointParser.SameFoldMatches | App.tsx:102-104 | texts that agree up to ASCII letter case have the same matches (the `i` flag) |
| PointParser.PointsIgnoreCase | App.tsx:102-104 | texts that agree up to ASCII letter case yield the same points |
| PointParser.MatchShift | App.tsx:102-104 | a match inside a text stays a match, with the same captured number, wherever that text occurs inside a longer one |
| PointParser.MatchIgnoresPrefix | App.tsx:102-104 | a match stays a match, with the same keyword and captured number, when text is put in front of it |
| PointParser.ForgetIsAnAward | App.tsx:102 | with no word boundaries, `forget 5 points` contains an award of 5 through `get` |
| PointParser.HyphenIsADeduction | App.tsx:103 | `x-5 points` contains a deduction of 5 starting at `-` |
| PointExamples.LoseTenPoints | App.tsx:103-107 | `You lose 10 points` is worth -10 |
| PointExamples.GainFiveAndAwardThree | App.tsx:102-108 | `Gain 5 points and award 3 points` is worth 8: every award is added |
| PointExamples.GenericMentionsAreSummed | App.tsx:104-111 | `50 points awarded, 20 points deducted` has no keyword match and is worth 70 |
| PointExamples.CancellingPhrasesAreCountedTwice | App.tsx:109-111 | `gain 5 points, lose 5 points` cancels, so the generic scan adds both numbers: 10 |
| PointExamples.MinusFiftyPoints | App.tsx:103-107 | `minus 50 points` is worth -50 |
| Catalog.CatalogShape | constants.tsx:4-20 | 4 base and 8 unlockable ingredients, twelve with distinct identifiers `"1"` to `"12"` in catalog order |
| Unlock.Tier | App.tsx:78 | the unlock count is 0 for a non-positive score, and otherwise the `t` with `200 t <= score < 200 (t + 1)` |
| Unlock.TierUnique | App.tsx:78 | the tier is the unique `t` with `200 t <= max(0, score) < 200 (t + 1)` |
| Unlock.TierMonotone | App.tsx:78 | the tier never falls as the score rises |
| Unlock.Shelf | App.tsx:77-80 | the shelf is the 4 base ingredients followed by the first `min(8, tier)` unlockables |
| Unlock.ShelfPrefixMonotone | App.tsx:77-80 | a higher score's shelf extends a lower score's shelf |
| Unlock.ShelfBelowFirstTier | App.tsx:77-80 | any score below 200, negative scores included, offers exactly the base shelf |
| Unlock.ShelfComplete | App.tsx:77-80 | from 1600 points the shelf is the whole catalog |
| Unlock.ShelfMembership | App.tsx:79 | an ingredient is on the shelf exactly when it is a base ingredient or one of the first `min(8, tier)` unlockables |
| Unlock.ShelfInCatalog | App.tsx:79 | the shelf holds only catalog ingredients |
| Unlock.Announcement | App.tsx:83-91 | an announcement is made exactly when the tier rose above the last observed one and the catalog has an entry for it; it names `UNLOCKABLE_INGREDIENTS[tier - 1]` |
| Unlock.JumpAnnouncesOnlyTheLast | App.tsx:84-88 | a jump over several tiers announces only the ingredient of the tier reached, which is the shelf's last |
| Unlock.AnnounceAgainAfterFall | App.tsx:84-92 | a fall announces nothing but lowers the observed tier, so climbing back announces again |
| Brew.AddIngredient | App.tsx:149-153 | when the potion is incomplete and holds fewer than 5 ingredients, exactly `ing` is appended at the end; otherwise nothing changes; no other field changes |
| Brew.SixthIngredientRefused | App.tsx:150 | with 5 ingredients present, adding is a no-op |
| Brew.Stir | App.tsx:155-157 | with ingredients and no brew running, the potion becomes stirring and not complete; the ingredients and results are kept; otherwise nothing changes |
| Brew.StirTwiceIsStirOnce | App.tsx:156 | stirring while a brew runs changes nothing: one brew at a time |
| Brew.Brewed | App.tsx:190-197 | success stops stirring, completes the potion and stores the title, description and colour; the ingredients stay |
| Brew.StirFailed | App.tsx:210 | failure stops stirring and changes nothing else |
| Brew.LiquidColor | App.tsx:215 | the result colour once complete; otherwise the last ingredient's colour, or `#2d3748` for an empty cauldron |
| Brew.EmptyValid | App.tsx:66-70 | the initial and reset potion is empty, idle and valid |
| Brew.TransitionsKeepValid | App.tsx:149-212 | every transition keeps the potion invariant; in particular there are never more than 5 ingredients |
| Brew.ValidHasColor | App.tsx:215 | a reachable potion always has a colour to draw |
| Brew.AddPhases | App.tsx:150 | adding fills an idle, loaded or brewing cauldron; a complete potion refuses it |
| Brew.StirPhases | App.tsx:156-157 | stirring starts a brew from a loaded or a complete potion; an empty cauldron or a running brew ignore it |
| Brew.OutcomePhases | App.tsx:188-212 | a brew ends complete on success, and loaded with its ingredients on failure |
| Brew.BrewingShowsLastIngredient | App.tsx:215 | while brewing, and after a failure, the liquid shows the last ingredient's colour |
| Registry.Contains | App.tsx:201 | true exactly when some entry's title equals the given one ignoring letter case |
| Registry.Record | App.tsx:200-203 | a title already present in any letter case leaves the registry as it is; otherwise `{title, color}` is appended |
| Registry.RecordRegisters | App.tsx:200-203 | after recording, the title is present and every earlier entry is kept in place |
| Registry.RecordKeepsDistinct | App.tsx:200-203 | recording keeps the titles pairwise distinct ignoring letter case |
| Registry.RecordGrowsByAtMostOne | App.tsx:200-203 | one brew adds at most one entry |
| Registry.CaseVariantsRegisterOnce | App.tsx:201 | a second title differing only in letter case adds nothing |
| Conversation.TrimStart | App.tsx:117 | leading white space is removed, and the result starts on a non-space |
| Conversation.TrimEnd | App.tsx:117 | trailing white space is removed, and the result ends on a non-space |
| Conversation.BlankIffAllSpace | App.tsx:117 | the send guard refuses the input exactly when it is empty or all white space |
| Conversation.ReplyText | App.tsx:134 | the shown text is never empty and is the response text whenever that is non-empty |
| Conversation.EmptyAnswerScoresNothing | App.tsx:134-136 | a response without text shows `...` and changes no points |
| Conversation.FailureScoresNothing | App.tsx:142-143 | a failed request shows `Magical interference detected.` and changes no points |
| Conversation.AlternatingAppend | App.tsx:120-141 | appending the message of the role whose turn it is keeps user and assistant turns alternating |
| Laboratory.Lab.constructor | App.tsx:57-75 | the initial state: 0 points, the greeting alone, an empty cauldron, no mastered potions, tier 0, no notification |
| Laboratory.Lab.UnlockEffect | App.tsx:82-93 | the notification becomes the announcement if there is one, and otherwise stays; the observed tier becomes the current tier unconditionally |
| Laboratory.Lab.NotificationExpired | App.tsx:89 | the notification timer clears the notification |
| Laboratory.Lab.SendMessage | App.tsx:115-121 | blank input or a pending reply does nothing; otherwise the user message is appended and typing starts; the invariant is kept |
| Laboratory.Lab.ReceiveReply | App.tsx:134-146 | the score changes by exactly the parsed points of the reply, with no floor, and nothing on failure; the reply or the fallback is appended; the unlock effect's outcome is stated; typing ends |
| Laboratory.Lab.AddIngredient | App.tsx:149-153 | the potion becomes `Brew.AddIngredient` of the old one; nothing else changes |
| Laboratory.Lab.StirPotion | App.tsx:155-157 | reports whether the brew started, and the potion becomes `Brew.Stir` of the old one; nothing else changes |
| Laboratory.Lab.BrewSucceeded | App.tsx:188-206 | the potion is `Brew.Brewed`, the registry is `Record`ed, the score gains exactly 25, and the unlock effect's outcome is stated |
| Laboratory.Lab.BrewFailed | App.tsx:208-212 | the potion is `Brew.StirFailed`; the score and the registry stay |
| Laboratory.Lab.EmptyCauldron | App.tsx:367-368 | a complete potion is replaced by the empty cauldron |
| Sessions.BrewToFirstUnlock | App.tsx:82-93 | from a fresh lab, exactly eight successful brews reach 200 points, and only then is the first unlockable announced |
| Sessions.PenaltyReply | App.tsx:134-141 | a reply of `minus 50 points` takes a fresh lab to -50 points, with the base shelf and a three-message transcript |
| Sessions.RebrewCaseVariant | App.tsx:200-205 | a complete potion can be stirred again for a further 25 points, and a case variant of its title adds no registry entry |

## Left out

- Sound (`playSound`, App.tsx:9-54) is left out. It is Web Audio output with floating-point frequencies and `Math.random`, and it changes no game state.
- The Gemini client, the request contents, and `JSON.parse` of the brew response are left out. The request contents include the system instruction carrying `CURRENT SCORE`. The outcome of each call is a parameter of the event that delivers it. A successful brew is assumed to carry the three string fields the response schema requires (App.tsx:183). A response whose `text` is undefined is modelled as the empty string.
- The brew progress bar, `Date.now` arithmetic and the 2.5-second brew delay are left out. The 4-second notification timeout is the separate event `NotificationExpired`. All of these are timers or floating point.
- Interleaving of the asynchronous handlers is not modelled: events are handled one at a time. This includes stale closures, React's batching of state updates, and a brew request still in flight when another event arrives. The brew outcome events require `isStirring`, and `ReceiveReply` requires a reply to be awaited.
- Rendering, tabs, scrolling and sparkles are left out, as is the `userInput` field. The input text is a parameter of `SendMessage`, and clearing the field is not modelled.
- The persona text in `CHARACTERS` is left out. The greeting is a parameter of the `Lab` constructor.
- Registry.SameTitle: `toLowerCase` folds the full Unicode range, but the model folds ASCII letters only. Titles differing only in a non-ASCII letter's case are therefore distinct in the model.
- Unlock.Tier: scores are unbounded integers, so JavaScript number precision above 2^53 is not modelled.
- PointParser.Value: `parseInt(match[1], 10)` is modelled as the exact natural number of the digit run. JavaScript rounds digit runs above 2^53 and yields `Infinity` for runs of more than about 308 digits. A reply with one such award and one such deduction makes `totalChange` `NaN`, which is `!== 0` and becomes the score; the model instead computes the exact difference.
- Conversation.TrimStart: `trim` removes exactly the characters of `IsSpace`, the ECMAScript white space and line terminators. Any later Unicode changes to that set are not modelled.

Where the code and the game's apparent intent differ, the model follows the code:

- An ingredient can be added while a brew is running (App.tsx:150 tests only `isComplete` and the count).
- A complete potion can be stirred again, and each further success pays 25 points again (App.tsx:156).
- Deductions are scanned before awards (App.tsx:107-108). The order does not affect the total.
