// The high-card game of bot.js: module-level game state changed by the
// chat commands !startgame, !hg, !reset, !dealercard, !dealer and !player.
// Apart from !player, which is matched by prefix, a command is recognised
// only when the lower-cased message equals it; the card commands read the
// message trimmed and split on runs of spaces.

module BotGame {
  import opened Text
  import opened Cards
  import opened Probability
  import opened Ledger
  import opened Chat

  /** The fresh deck, built suit by suit and, within a suit, rank by rank. */
  method InitializeDeck() returns (deck: seq<Card>)
    ensures deck == FullDeck()
  {
    deck := [];
    for s := 0 to 4
      invariant deck == FullDeck()[..13 * s]
    {
      for r := 0 to 13
        invariant deck == FullDeck()[..13 * s + r]
      {
        FullDeckAt(s, r);
        assert FullDeck()[..13 * s + r + 1] == FullDeck()[..13 * s + r] + [Card(Suits[s], r)];
        deck := deck + [Card(Suits[s], r)];
      }
    }
    assert FullDeck()[..52] == FullDeck();
  }

  /** The replies a game can give while no card has ever been accepted. */
  predicate Idle(r: Reply) {
    r.GameStarted? || r.GameReset? || r.RuleHint? || r.SuitLegend? || r.DealerPrompt? ||
    r.InvalidFormat? || r.InvalidCard? || r.NoDealerCard?
  }

  /** A snapshot of the game's globals, taken before a command changes them. */
  datatype Globals = Globals(deck: seq<Card>, usedCards: seq<Card>, lastPlayerCard: Option<Card>, dealerCard: Option<Card>)

  /**
   * The globals once `!dealercard` has handed the last player card to the
   * dealer: the card is recorded a second time and the deck stays as it is.
   */
  function Inherit(g: Globals): Globals
    requires g.lastPlayerCard.Some?
  {
    g.(usedCards := g.usedCards + [g.lastPlayerCard.value], lastPlayerCard := None, dealerCard := g.lastPlayerCard)
  }

  /** The replies to an inherited dealer card: the card, the odds against it and the used cards. */
  function InheritReplies(g: Globals): seq<Reply>
    requires g.lastPlayerCard.Some?
  {
    var c := g.lastPlayerCard.value;
    [Inherited(c), DealerOdds(Probabilities(g.deck, c)), UsedSoFar(Unique(g.usedCards + [c]))]
  }

  /** The game's globals: the deck, the used cards and the two remembered cards. */
  class Bot {
    var deck: seq<Card>
    var usedCards: seq<Card>
    var lastPlayerCard: Option<Card>
    var dealerCard: Option<Card>

    /**
     * The deck is the fresh deck less every used card (so deck and ledger
     * partition the 52 cards), and the remembered cards have been used.
     */
    ghost predicate Valid()
      reads this
    {
      deck == Remaining(usedCards) &&
      (dealerCard.Some? ==> dealerCard.value in usedCards) &&
      (lastPlayerCard.Some? ==> lastPlayerCard.value in usedCards)
    }

    /** The state a new game starts from. */
    ghost predicate Started()
      reads this
    {
      deck == FullDeck() && usedCards == [] && lastPlayerCard == None && dealerCard == None
    }

    ghost function Snapshot(): Globals
      reads this
    {
      Globals(deck, usedCards, lastPlayerCard, dealerCard)
    }

    /** The globals are those of the snapshot g. */
    ghost predicate At(g: Globals)
      reads this
    {
      deck == g.deck && usedCards == g.usedCards && lastPlayerCard == g.lastPlayerCard && dealerCard == g.dealerCard
    }

    twostate predicate Untouched()
      reads this
    {
      At(old(Snapshot()))
    }

    /**
     * The effect of `!dealercard` on the globals `before`: without a last
     * player card it only prompts; otherwise the dealer inherits that card,
     * the odds against it and the used cards are shown, and an empty deck is
     * announced (the handler does not return there).
     */
    ghost predicate DealtInherited(before: Globals, replies: seq<Reply>)
      reads this
    {
      if before.lastPlayerCard.None? then At(before) && replies == [DealerPrompt]
      else At(Inherit(before)) && replies == InheritReplies(before) + EmptyNotice(before.deck)
    }

    /**
     * The effect of the dealer branch with a valid card on the globals
     * `before`: the card becomes the dealer card even when it is then
     * rejected as already used; otherwise it is drawn from the deck and
     * recorded, and the odds against it are shown.
     */
    ghost predicate DealtAsDealer(before: Globals, card: Card, replies: seq<Reply>)
      reads this
    {
      dealerCard == Some(card) && lastPlayerCard == before.lastPlayerCard &&
      if card in before.usedCards then
        deck == before.deck && usedCards == before.usedCards && replies == [AlreadyUsed]
      else
        deck == RemoveCard(before.deck, card) && |deck| + 1 == |before.deck| &&
        usedCards == before.usedCards + [card] &&
        replies == [DealerOdds(Probabilities(deck, card)), UsedSoFar(Unique(usedCards)), PlayerPrompt] + EmptyNotice(deck)
    }

    /**
     * The effect of `!player` with a valid card on the globals `before`:
     * nothing changes without a dealer card or for a used card; otherwise a
     * round is played.
     */
    ghost predicate PlayedAsPlayer(before: Globals, card: Card, replies: seq<Reply>)
      reads this
    {
      if before.dealerCard.None? then At(before) && replies == [NoDealerCard]
      else if card in before.usedCards then At(before) && replies == [AlreadyUsed]
      else PlayedRound(before, card, replies)
    }

    /**
     * A round on the globals `before`, which hold a dealer card but not the
     * player's card: the card is drawn and recorded, the outcome against the
     * dealer card is announced, and the card becomes both the dealer card and
     * the last player card whatever the outcome.
     */
    ghost predicate PlayedRound(before: Globals, card: Card, replies: seq<Reply>)
      requires before.dealerCard.Some?
      reads this
    {
      deck == RemoveCard(before.deck, card) && |deck| + 1 == |before.deck| &&
      usedCards == before.usedCards + [card] &&
      dealerCard == Some(card) && lastPlayerCard == Some(card) &&
      replies == [Announcement(CompareRanks(before.dealerCard.value, card), card),
                  UsedSoFar(Unique(usedCards)), UpdatedOdds(Probabilities(deck, card)),
                  PlayerPrompt] + EmptyNotice(deck)
    }

    /**
     * The card block on the message's args, run on the globals `before`:
     * exactly three of them, then a valid suit and rank, then the dealer or
     * the player rules.
     */
    ghost predicate CardBlock(before: Globals, asDealer: bool, args: seq<string>, replies: seq<Reply>)
      reads this
    {
      if |args| != 3 then At(before) && replies == [InvalidFormat]
      else if ParseCard(args[1], args[2]).None? then At(before) && replies == [InvalidCard]
      else if asDealer then DealtAsDealer(before, ParseCard(args[1], args[2]).value, replies)
      else PlayedAsPlayer(before, ParseCard(args[1], args[2]).value, replies)
    }

    /** The state at module load. */
    constructor ()
      ensures Started() && Valid()
    {
      var full := InitializeDeck();
      deck := full;
      usedCards := [];
      lastPlayerCard := None;
      dealerCard := None;
    }

    /** What `!startgame` and `!reset` do to the state. */
    method Restart()
      modifies this
      ensures Started() && Valid()
    {
      deck := InitializeDeck();
      usedCards := [];
      lastPlayerCard := None;
      dealerCard := None;
    }

    /**
     * Takes a card out of the deck and appends it to the used cards, so the
     * deck stays what the ledger leaves. A used card is no longer in the
     * deck, which then stays as it is; otherwise the deck shrinks by one.
     */
    method Record(card: Card)
      requires deck == Remaining(usedCards)
      modifies this
      ensures deck == RemoveCard(old(deck), card) && usedCards == old(usedCards) + [card]
      ensures deck == Remaining(usedCards)
      ensures card in old(usedCards) ==> deck == old(deck)
      ensures card !in old(usedCards) ==> |deck| + 1 == |old(deck)|
      ensures lastPlayerCard == old(lastPlayerCard) && dealerCard == old(dealerCard)
    {
      if card in usedCards {
        RedrawUsed(usedCards, card);
      } else {
        DrawUnused(usedCards, card);
      }
      RemainingAppend(usedCards, card);
      deck := RemoveCard(deck, card);
      usedCards := usedCards + [card];
    }

    /**
     * `!dealercard`: the dealer inherits the last player card, which is
     * recorded a second time while the deck stays as it is; without a last
     * player card it only prompts.
     */
    method DealerCard() returns (replies: seq<Reply>)
      requires Valid()
      modifies this
      ensures Valid()
      ensures DealtInherited(old(Snapshot()), replies)
      ensures old(lastPlayerCard).Some? ==> old(lastPlayerCard).value in old(usedCards)
    {
      if lastPlayerCard.Some? {
        dealerCard := lastPlayerCard;
        lastPlayerCard := None;
        replies := [Inherited(dealerCard.value)];
      } else {
        replies := [DealerPrompt];
        return;
      }
      var card := dealerCard.value;
      Record(card);
      var odds := Probabilities(deck, card);
      replies := replies + [DealerOdds(odds), UsedSoFar(Unique(usedCards))];
      assert replies == [Inherited(card), DealerOdds(odds), UsedSoFar(Unique(usedCards))];
      if |deck| == 0 {
        replies := replies + [DeckEmpty];
      }
    }

    /** The dealer branch of the card block, once the card is known to be valid. */
    method Dealer(card: Card) returns (replies: seq<Reply>)
      requires Valid()
      modifies this
      ensures Valid()
      ensures DealtAsDealer(old(Snapshot()), card, replies)
    {
      dealerCard := Some(card);
      if card in usedCards {
        replies := [AlreadyUsed];
        return;
      }
      Record(card);
      var odds := Probabilities(deck, card);
      var shown := Unique(usedCards);
      replies := [DealerOdds(odds), UsedSoFar(shown), PlayerPrompt];
      if |deck| == 0 {
        replies := replies + [DeckEmpty];
      }
    }

    /** The player branch of the card block, once the card is known to be valid. */
    method Player(card: Card) returns (replies: seq<Reply>)
      requires Valid()
      modifies this
      ensures Valid()
      ensures PlayedAsPlayer(old(Snapshot()), card, replies)
    {
      if dealerCard.None? {
        replies := [NoDealerCard];
        return;
      }
      if card in usedCards {
        replies := [AlreadyUsed];
        return;
      }
      replies := Round(card);
    }

    /** The round of `!player`, once there is a dealer card and the card is unused. */
    method Round(card: Card) returns (replies: seq<Reply>)
      requires Valid() && dealerCard.Some? && card !in usedCards
      modifies this
      ensures Valid()
      ensures PlayedRound(old(Snapshot()), card, replies)
    {
      Record(card);
      var result := CompareRanks(dealerCard.value, card);
      if result == Tie {
        replies := [TieRound(card.rank)];
      } else {
        replies := [RoundWon(result)];
      }
      // Both branches of the handler then make the card the last player
      // card and the next dealer card.
      lastPlayerCard := Some(card);
      dealerCard := Some(card);
      assert replies == [Announcement(result, card)];
      var shown := Unique(usedCards);
      var odds := Probabilities(deck, dealerCard.value);
      replies := replies + [UsedSoFar(shown), UpdatedOdds(odds), PlayerPrompt];
      assert replies == [Announcement(result, card), UsedSoFar(shown), UpdatedOdds(odds), PlayerPrompt];
      if |deck| == 0 {
        replies := replies + [DeckEmpty];
      }
    }

    /**
     * The card block: exactly three arguments, then a valid suit and rank,
     * then the dealer branch for a message equal to "!dealer" and the player
     * branch for one starting with "!player".
     */
    method CardCommand(lowered: string, args: seq<string>) returns (replies: seq<Reply>)
      requires Valid()
      requires SameText(lowered, "!dealer") || StartsWith(lowered, "!player")
      modifies this
      ensures Valid()
      ensures CardBlock(old(Snapshot()), SameText(lowered, "!dealer"), args, replies)
    {
      if |args| != 3 {
        replies := [InvalidFormat];
        return;
      }
      var card := ParseCard(args[1], args[2]);
      if card.None? {
        replies := [InvalidCard];
        return;
      }
      // The two branches are separate tests in the handler; a message equal
      // to "!dealer" does not start with "!player", so at most one is taken.
      PrefixesExclude(lowered, "!dealer", "!player", 1);
      if SameText(lowered, "!dealer") {
        replies := Dealer(card.value);
      } else if StartsWith(lowered, "!player") {
        replies := Player(card.value);
      }
    }

    /**
     * The commands that need no card: `!startgame`, `!hg` and `!reset`,
     * each recognised only when the lower-cased message is exactly the command.
     */
    method SetupCommands(lowered: string) returns (replies: seq<Reply>)
      requires Valid()
      modifies this
      ensures Valid()
      ensures SameText(lowered, "!startgame") ==> Started() && replies == [GameStarted, RuleHint, SuitLegend]
      ensures SameText(lowered, "!hg") ==> Untouched() && replies == [SuitLegend]
      ensures SameText(lowered, "!reset") ==> Started() && replies == [GameReset]
      ensures (!SameText(lowered, "!startgame") && !SameText(lowered, "!hg") && !SameText(lowered, "!reset")) ==>
        Untouched() && replies == []
    {
      replies := [];
      if SameText(lowered, "!startgame") {
        Restart();
        replies := replies + [GameStarted, RuleHint, SuitLegend];
      }
      if SameText(lowered, "!hg") {
        replies := replies + [SuitLegend];
      }
      if SameText(lowered, "!reset") {
        Restart();
        replies := replies + [GameReset];
      }
    }

    /**
     * The commands that deal cards: `!dealercard`, then the card block for a
     * message equal to "!dealer" or starting with "!player". A message equal
     * to "!dealer" has a single argument, so the dealer branch is never
     * reached, and without a dealer card every `!player` is refused: a
     * started game stays in its starting state.
     */
    method CardCommands(content: string) returns (replies: seq<Reply>)
      requires Valid()
      modifies this
      ensures Valid()
      ensures var lowered := Lower(content);
        (!SameText(lowered, "!dealercard") && !SameText(lowered, "!dealer") && !StartsWith(lowered, "!player")) ==>
        Untouched() && replies == []
      ensures SameText(Lower(content), "!dealercard") ==> DealtInherited(old(Snapshot()), replies)
      ensures SameText(Lower(content), "!dealer") ==> Untouched() && replies == [InvalidFormat]
      ensures StartsWith(Lower(content), "!player") ==> CardBlock(old(Snapshot()), false, JsArgs(content), replies)
      ensures old(Started()) ==> Started() && forall r :: r in replies ==> Idle(r)
    {
      var lowered := Lower(content);
      var args := JsArgs(content);
      PrefixesExclude(lowered, "!dealercard", "!player", 1);
      // The handler tests the two blocks one after the other, but a message
      // equal to "!dealercard" passes neither later test, so at most one runs.
      if SameText(lowered, "!dealercard") {
        assert !SameText(lowered, "!dealer") by { assert |lowered| == 11; }
        replies := DealerCard();
      } else if SameText(lowered, "!dealer") || StartsWith(lowered, "!player") {
        if SameText(lowered, "!dealer") {
          DealerCommandHasOneArg(content);
        }
        replies := CardCommand(lowered, args);
      } else {
        replies := [];
      }
    }

    /**
     * One chat message: the command checks run in turn on the lower-cased
     * message. A game that has been started stays in its starting state
     * whatever is sent.
     */
    method OnMessage(content: string) returns (replies: seq<Reply>)
      requires Valid()
      modifies this
      ensures Valid()
      ensures var lowered := Lower(content);
        (!SameText(lowered, "!startgame") && !SameText(lowered, "!hg") && !SameText(lowered, "!reset") &&
         !SameText(lowered, "!dealercard") && !SameText(lowered, "!dealer") && !StartsWith(lowered, "!player")) ==>
        Untouched() && replies == []
      ensures SameText(Lower(content), "!startgame") ==> Started() && replies == [GameStarted, RuleHint, SuitLegend]
      ensures SameText(Lower(content), "!reset") ==> Started() && replies == [GameReset]
      ensures SameText(Lower(content), "!hg") ==> Untouched() && replies == [SuitLegend]
      ensures SameText(Lower(content), "!dealercard") ==> DealtInherited(old(Snapshot()), replies)
      ensures SameText(Lower(content), "!dealer") ==> Untouched() && replies == [InvalidFormat]
      ensures StartsWith(Lower(content), "!player") ==> CardBlock(old(Snapshot()), false, JsArgs(content), replies)
      ensures old(dealerCard).None? && StartsWith(Lower(content), "!player") ==> Untouched()
      ensures old(Started()) ==> Started() && forall r :: r in replies ==> Idle(r)
    {
      var lowered := Lower(content);
      PrefixesExclude(lowered, "!startgame", "!player", 1);
      PrefixesExclude(lowered, "!hg", "!player", 1);
      PrefixesExclude(lowered, "!reset", "!player", 1);
      replies := SetupCommands(lowered);
      var more := CardCommands(content);
      replies := replies + more;
    }

    /**
     * A run of messages from a started game: the game never leaves its
     * starting state, so no card is ever drawn and no round is ever decided.
     */
    method Replay(messages: seq<string>) returns (transcript: seq<Reply>)
      requires Valid() && Started()
      modifies this
      ensures Valid() && Started()
      ensures forall r :: r in transcript ==> Idle(r)
    {
      transcript := [];
      for i := 0 to |messages|
        invariant Valid() && Started()
        invariant forall r :: r in transcript ==> Idle(r)
      {
        var replies := OnMessage(messages[i]);
        transcript := transcript + replies;
      }
    }
  }
}
