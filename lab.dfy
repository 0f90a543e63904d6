/** The App component's game state and its event handlers. Each network response and each timer is
    an event of its own, carrying its outcome as a parameter. */
module Laboratory {
  import opened Wrappers
  import opened Catalog
  import opened Unlock
  import opened PointParser
  import Brew
  import opened Registry
  import opened Conversation

  /** Points awarded for every successful brew. */
  const BrewBonus: int := 25

  class Lab {
    var housePoints: int
    var notification: Option<string>
    var messages: seq<Message>
    var isTyping: bool
    var potion: Brew.PotionState
    var mastered: seq<Mastered>
    /** lastUnlockedRef: the unlock tier the unlock effect saw last. */
    var lastUnlocked: nat

    /** What holds between events: a valid potion, distinct mastered titles, the unlock effect up to
        date with the score, and a transcript of the greeting followed by user and assistant turns
        in alternation, ending on the user's while a reply is awaited. */
    ghost predicate Valid()
      reads this
    {
      && Brew.Valid(potion)
      && Distinct(mastered)
      && lastUnlocked == Tier(housePoints)
      && |messages| > 0 && Alternating(messages)
      && (isTyping <==> |messages| % 2 == 0)
    }

    /** The state at mount: no points, the character's greeting, an empty cauldron. */
    constructor (greeting: string)
      ensures Valid()
      ensures housePoints == 0 && notification == None
      ensures messages == [Message(Assistant, greeting)] && !isTyping
      ensures potion == Brew.Empty && mastered == [] && lastUnlocked == 0
    {
      housePoints := 0;
      notification := None;
      messages := [Message(Assistant, greeting)];
      isTyping := false;
      potion := Brew.Empty;
      mastered := [];
      lastUnlocked := 0;
    }

    /** The unlock effect, run after the score changed: a rise above the last observed tier
        announces the ingredient of the new tier, if the catalog has one, and the observed tier
        becomes the current one whether it rose or fell. */
    method UnlockEffect()
      modifies this
      ensures lastUnlocked == Tier(housePoints)
      ensures notification == NotificationAfter(old(lastUnlocked), housePoints, old(notification))
      ensures housePoints == old(housePoints) && messages == old(messages) && isTyping == old(isTyping)
      ensures potion == old(potion) && mastered == old(mastered)
    {
      var currentUnlockCount := Tier(housePoints);
      if currentUnlockCount > lastUnlocked {
        var newIng: Option<Ingredient> :=
          if currentUnlockCount - 1 < |Unlockable| then Some(Unlockable[currentUnlockCount - 1]) else None;
        if newIng.Some? {
          notification := Some(UnlockText(newIng.value));
        }
      }
      lastUnlocked := currentUnlockCount;
    }

    /** The unlock notification's 4-second timer fired. */
    method NotificationExpired()
      requires Valid()
      modifies this
      ensures Valid()
      ensures notification == None
      ensures housePoints == old(housePoints) && messages == old(messages) && isTyping == old(isTyping)
      ensures potion == old(potion) && mastered == old(mastered) && lastUnlocked == old(lastUnlocked)
    {
      notification := None;
    }

    // -------------------------------------------------------------------------------------------
    // The conversation.

    /** handleSendMessage up to the request: blank input or a reply still awaited does nothing;
        otherwise the user's message is appended and input is disabled. */
    method SendMessage(input: string) returns (sent: bool)
      requires Valid()
      modifies this
      ensures Valid()
      ensures sent <==> !IsBlank(input) && !old(isTyping)
      ensures messages == if sent then old(messages) + [Message(User, input)] else old(messages)
      ensures isTyping == (sent || old(isTyping))
      ensures housePoints == old(housePoints) && notification == old(notification)
      ensures potion == old(potion) && mastered == old(mastered) && lastUnlocked == old(lastUnlocked)
    {
      if IsBlank(input) || isTyping {
        return false;
      }
      messages := messages + [Message(User, input)];
      isTyping := true;
      return true;
    }

    /** handleSendMessage after the request: on a response its points are parsed and, when there
        are any, added to the score (no floor) before the unlock effect runs, and the reply is
        appended; on failure the fallback message is appended and the score stays. Either way input
        is enabled again. */
    method ReceiveReply(reply: Reply)
      requires Valid() && isTyping
      modifies this
      ensures Valid() && !isTyping
      ensures messages == old(messages) + [Message(Assistant, AssistantText(reply))]
      ensures housePoints == old(housePoints) + ScoreChange(reply)
      ensures notification == NotificationAfter(old(lastUnlocked), housePoints, old(notification))
      ensures potion == old(potion) && mastered == old(mastered)
    {
      var aiText := Fallback;
      if reply.Answered? {
        aiText := if reply.text == [] then NoText else reply.text;
        var pointChange := ParsePoints(aiText);
        if pointChange != 0 {
          housePoints := housePoints + pointChange;
          UnlockEffect();
        }
      }
      ghost var n := |messages|;
      assert n % 2 == 0 && RoleAt(n) == Assistant;
      AlternatingAppend(messages, Message(Assistant, aiText));
      messages := messages + [Message(Assistant, aiText)];
      assert |messages| == n + 1 && |messages| % 2 == 1;
      isTyping := false;
    }

    // -------------------------------------------------------------------------------------------
    // The laboratory.

    /** addIngredient: refused once the potion is complete or holds five ingredients. */
    method AddIngredient(ing: Ingredient)
      requires Valid()
      modifies this
      ensures Valid()
      ensures potion == Brew.AddIngredient(old(potion), ing)
      ensures housePoints == old(housePoints) && notification == old(notification)
      ensures messages == old(messages) && isTyping == old(isTyping)
      ensures mastered == old(mastered) && lastUnlocked == old(lastUnlocked)
    {
      if potion.isComplete || |potion.ingredients| >= Brew.MaxIngredients {
        return;
      }
      potion := potion.(ingredients := potion.ingredients + [ing]);
    }

    /** stirPotion up to the request: refused on an empty cauldron or while a brew runs; otherwise
        the brew starts. */
    method StirPotion() returns (started: bool)
      requires Valid()
      modifies this
      ensures Valid()
      ensures started == Brew.CanStir(old(potion))
      ensures potion == Brew.Stir(old(potion))
      ensures housePoints == old(housePoints) && notification == old(notification)
      ensures messages == old(messages) && isTyping == old(isTyping)
      ensures mastered == old(mastered) && lastUnlocked == old(lastUnlocked)
    {
      if |potion.ingredients| == 0 || potion.isStirring {
        return false;
      }
      potion := potion.(isStirring := true, isComplete := false);
      return true;
    }

    /** The brew timer fired after a successful request: the potion is complete with the result, a
        new title enters the registry, 25 points are added and the unlock effect runs. */
    method BrewSucceeded(result: Brew.Outcome)
      requires Valid() && potion.isStirring
      modifies this
      ensures Valid()
      ensures potion == Brew.Brewed(old(potion), result)
      ensures mastered == Record(old(mastered), result.title, result.color)
      ensures housePoints == old(housePoints) + BrewBonus
      ensures notification == NotificationAfter(old(lastUnlocked), housePoints, old(notification))
      ensures messages == old(messages) && isTyping == old(isTyping)
    {
      potion := potion.(isStirring := false, isComplete := true, resultTitle := Some(result.title),
                        resultDescription := Some(result.description), resultColor := Some(result.color));
      RecordKeepsDistinct(mastered, result.title, result.color);
      if !Contains(mastered, result.title) {
        mastered := mastered + [Mastered(result.title, result.color)];
      }
      housePoints := housePoints + BrewBonus;
      UnlockEffect();
    }

    /** The brew request failed (network or malformed JSON): stirring stops; the ingredients, the
        score and the registry stay. */
    method BrewFailed()
      requires Valid() && potion.isStirring
      modifies this
      ensures Valid()
      ensures potion == Brew.StirFailed(old(potion))
      ensures housePoints == old(housePoints) && notification == old(notification)
      ensures messages == old(messages) && isTyping == old(isTyping)
      ensures mastered == old(mastered) && lastUnlocked == old(lastUnlocked)
    {
      potion := potion.(isStirring := false);
    }

    /** "Empty Cauldron", offered once the potion is complete: back to the empty cauldron. */
    method EmptyCauldron()
      requires Valid() && potion.isComplete
      modifies this
      ensures Valid()
      ensures potion == Brew.Empty
      ensures housePoints == old(housePoints) && notification == old(notification)
      ensures messages == old(messages) && isTyping == old(isTyping)
      ensures mastered == old(mastered) && lastUnlocked == old(lastUnlocked)
    {
      potion := Brew.PotionState([], false, false, None, None, None);
    }
  }
}
