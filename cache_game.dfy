// The high-card game of Cache.py: module-level game state changed by the
// chat commands !startgame, !hg, !reset, !dealercard, !dealer and !player.
// Commands are recognised by the prefix of the lower-cased message, and
// the card commands split the message on whitespace.

module CacheGame {
  import opened Text
  import opened Cards
  import opened Probability
  import opened Ledger
  import opened Chat

  /** The used cards without repeats, in order of first use, built by one pass. */
  method UniqueUsedCards(used: seq<Card>) returns (unique: seq<Card>)
    ensures unique == Unique(used)
  {
    unique := [];
    for i := 0 to |used|
      invariant unique == Unique(used[..i])
    {
      assert used[..i + 1][..i] == used[..i];
      if used[i] !in unique {
        unique := unique + [used[i]];
      }
    }
    assert used[..|used|] == used;
  }

  /** A snapshot of the game's globals, taken before a command changes them. */
  datatype Globals = Globals(deck: seq<Card>, usedCards: seq<Card>, roundNumber: int,
                             lastPlayerCard: Option<Card>, dealerCard: Option<Card>)

  /**
   * The globals once `!dealercard` has handed the last player card to the
   * dealer: the card is recorded a second time and the deck stays as it is.
   */
  function Inherit(g: Globals): Globals
    requires g.lastPlayerCard.Some?
  {
    g.(usedCards := g.usedCards + [g.lastPlayerCard.value], lastPlayerCard := None, dealerCard := g.lastPlayerCard)
  }

  /** The replies to an inherited dealer card: the card, the odds against it and the used cards. */
  function InheritReplies(g: Globals): seq<Reply>
    requires g.lastPlayerCard.Some?
  {
    var c := g.lastPlayerCard.value;
    [Inherited(c), DealerOdds(Probabilities(g.deck, c)), UsedSoFar(Unique(g.usedCards + [c]))]
  }

  /** The game's globals: the deck, the used cards, the round and the two remembered cards. */
  class Bot {
    var deck: seq<Card>
    var usedCards: seq<Card>
    var roundNumber: int
    var lastPlayerCard: Option<Card>
    var dealerCard: Option<Card>

    /**
     * The deck is the fresh deck less every used card (so deck and ledger
     * partition the 52 cards), the remembered cards have been used, and the
     * round number is never changed from 1.
     */
    ghost predicate Valid()
      reads this
    {
      deck == Remaining(usedCards) &&
      roundNumber == 1 &&
      (dealerCard.Some? ==> dealerCard.value in usedCards) &&
      (lastPlayerCard.Some? ==> lastPlayerCard.value in usedCards)
    }

    /** The state a new game starts from. */
    ghost predicate Started()
      reads this
    {
      deck == FullDeck() && usedCards == [] && roundNumber == 1 &&
      lastPlayerCard == None && dealerCard == None
    }

    ghost function Snapshot(): Globals
      reads this
    {
      Globals(deck, usedCards, roundNumber, lastPlayerCard, dealerCard)
    }

    /** The globals are those of the snapshot g. */
    ghost predicate At(g: Globals)
      reads this
    {
      deck == g.deck && usedCards == g.usedCards && roundNumber == g.roundNumber &&
      lastPlayerCard == g.lastPlayerCard && dealerCard == g.dealerCard
    }

    twostate predicate Untouched()
      reads this
    {
      At(old(Snapshot()))
    }

    /**
     * The effect of `!dealer` with a valid card on the globals `before`: the
     * card becomes the dealer card even when it is then rejected as already
     * used; otherwise it is drawn from the deck and recorded, and the odds
     * against it are shown.
     */
    ghost predicate DealtAsDealer(before: Globals, card: Card, replies: seq<Reply>)
      reads this
    {
      dealerCard == Some(card) && lastPlayerCard == before.lastPlayerCard && roundNumber == before.roundNumber &&
      if card in before.usedCards then
        deck == before.deck && usedCards == before.usedCards && replies == [AlreadyUsed]
      else
        deck == RemoveCard(before.deck, card) && |deck| + 1 == |before.deck| &&
        usedCards == before.usedCards + [card] &&
        replies == [DealerOdds(Probabilities(deck, card)), UsedSoFar(Unique(usedCards)), PlayerPrompt] + EmptyNotice(deck)
    }

    /**
     * The effect of `!player` with a valid card on the globals `before`:
     * nothing changes without a dealer card or for a used card; otherwise a
     * round is played.
     */
    ghost predicate PlayedAsPlayer(before: Globals, card: Card, replies: seq<Reply>)
      reads this
    {
      if before.dealerCard.None? then At(before) && replies == [NoDealerCard]
      else if card in before.usedCards then At(before) && replies == [AlreadyUsed]
      else PlayedRound(before, card, replies)
    }

    /**
     * A round on the globals `before`, which hold a dealer card but not the
     * player's card: the card is drawn and recorded, the outcome against the
     * dealer card is announced, and the card becomes both the dealer card and
     * the last player card whatever the outcome.
     */
    ghost predicate PlayedRound(before: Globals, card: Card, replies: seq<Reply>)
      requires before.dealerCard.Some?
      reads this
    {
      deck == RemoveCard(before.deck, card) && |deck| + 1 == |before.deck| &&
      usedCards == before.usedCards + [card] &&
      dealerCard == Some(card) && lastPlayerCard == Some(card) && roundNumber == before.roundNumber &&
      replies == [Announcement(CompareRanks(before.dealerCard.value, card), card),
                  UsedSoFar(Unique(usedCards)), UpdatedOdds(Probabilities(deck, card)),
                  UsedSoFar(Unique(usedCards)), PlayerPrompt] + EmptyNotice(deck)
    }

    /**
     * The card block on the message's tokens, run on the globals `before`:
     * exactly three tokens, then a valid suit and rank, then the dealer or
     * the player rules.
     */
    ghost predicate CardBlock(before: Globals, asDealer: bool, tokens: seq<string>, replies: seq<Reply>)
      reads this
    {
      if |tokens| != 3 then At(before) && replies == [InvalidFormat]
      else if ParseCard(tokens[1], tokens[2]).None? then At(before) && replies == [InvalidCard]
      else if asDealer then DealtAsDealer(before, ParseCard(tokens[1], tokens[2]).value, replies)
      else PlayedAsPlayer(before, ParseCard(tokens[1], tokens[2]).value, replies)
    }

    /**
     * The effect of `!dealercard` on the globals `before`. Without a last
     * player card it only prompts. Otherwise the dealer inherits that card;
     * an empty deck ends the handler, and otherwise the message, which also
     * starts with "!dealer", goes on to the dealer's card block on the
     * globals as they now are.
     */
    ghost predicate DealerCardThenBlock(before: Globals, tokens: seq<string>, replies: seq<Reply>)
      reads this
    {
      if before.lastPlayerCard.None? then At(before) && replies == [DealerPrompt]
      else
        |replies| >= 3 && replies[..3] == InheritReplies(before) &&
        if |before.deck| == 0 then At(Inherit(before)) && replies[3..] == [DeckEmpty]
        else CardBlock(Inherit(before), true, tokens, replies[3..])
    }

    /** The state at module load. */
    constructor ()
      ensures Started() && Valid()
    {
      deck := FullDeck();
      usedCards := [];
      roundNumber := 1;
      lastPlayerCard := None;
      dealerCard := None;
    }

    /** What `!startgame` and `!reset` do to the state. */
    method Restart()
      modifies this
      ensures Started() && Valid()
    {
      deck := FullDeck();
      usedCards := [];
      roundNumber := 1;
      lastPlayerCard := None;
      dealerCard := None;
    }

    /**
     * Takes a card out of the deck and appends it to the used cards, so the
     * deck stays what the ledger leaves. A used card is no longer in the
     * deck, which then stays as it is; otherwise the deck shrinks by one.
     */
    method Record(card: Card)
      requires deck == Remaining(usedCards)
      modifies this
      ensures deck == RemoveCard(old(deck), card) && usedCards == old(usedCards) + [card]
      ensures deck == Remaining(usedCards)
      ensures card in old(usedCards) ==> deck == old(deck)
      ensures card !in old(usedCards) ==> |deck| + 1 == |old(deck)|
      ensures roundNumber == old(roundNumber) && lastPlayerCard == old(lastPlayerCard) && dealerCard == old(dealerCard)
    {
      if card in usedCards {
        RedrawUsed(usedCards, card);
      } else {
        DrawUnused(usedCards, card);
      }
      RemainingAppend(usedCards, card);
      deck := RemoveCard(deck, card);
      usedCards := usedCards + [card];
    }

    /**
     * `!dealercard`: the dealer inherits the last player card, which is
     * recorded a second time while the deck stays as it is; without a last
     * player card it only prompts. `stop` is the handler returning early.
     */
    method DealerCard() returns (replies: seq<Reply>, stop: bool)
      requires Valid()
      modifies this
      ensures Valid()
      ensures old(lastPlayerCard).None? ==> Untouched() && replies == [DealerPrompt] && stop
      ensures old(lastPlayerCard).Some? ==>
        old(lastPlayerCard).value in old(usedCards) && At(Inherit(old(Snapshot()))) &&
        replies == InheritReplies(old(Snapshot())) + EmptyNotice(deck) && stop == (|deck| == 0)
    {
      if lastPlayerCard.Some? {
        dealerCard := lastPlayerCard;
        lastPlayerCard := None;
        replies := [Inherited(dealerCard.value)];
      } else {
        replies := [DealerPrompt];
        stop := true;
        return;
      }
      var card := dealerCard.value;
      Record(card);
      var odds := Probabilities(deck, card);
      var shown := UniqueUsedCards(usedCards);
      replies := replies + [DealerOdds(odds), UsedSoFar(shown)];
      assert replies == [Inherited(card), DealerOdds(odds), UsedSoFar(shown)];
      stop := false;
      if |deck| == 0 {
        replies := replies + [DeckEmpty];
        stop := true;
        return;
      }
    }

    /** `!dealer <suit> <rank>` once the card is known to be valid. */
    method Dealer(card: Card) returns (replies: seq<Reply>)
      requires Valid()
      modifies this
      ensures Valid()
      ensures DealtAsDealer(old(Snapshot()), card, replies)
    {
      dealerCard := Some(card);
      if card in usedCards {
        replies := [AlreadyUsed];
        return;
      }
      Record(card);
      var odds := Probabilities(deck, card);
      var shown := UniqueUsedCards(usedCards);
      replies := [DealerOdds(odds), UsedSoFar(shown), PlayerPrompt];
      if |deck| == 0 {
        replies := replies + [DeckEmpty];
        return;
      }
    }

    /** `!player <suit> <rank>` once the card is known to be valid. */
    method Player(card: Card) returns (replies: seq<Reply>)
      requires Valid()
      modifies this
      ensures Valid()
      ensures PlayedAsPlayer(old(Snapshot()), card, replies)
    {
      if dealerCard.None? {
        replies := [NoDealerCard];
        return;
      }
      if card in usedCards {
        replies := [AlreadyUsed];
        return;
      }
      replies := Round(card);
    }

    /** The round of `!player`, once there is a dealer card and the card is unused. */
    method Round(card: Card) returns (replies: seq<Reply>)
      requires Valid() && dealerCard.Some? && card !in usedCards
      modifies this
      ensures Valid()
      ensures PlayedRound(old(Snapshot()), card, replies)
    {
      Record(card);
      var result := CompareRanks(dealerCard.value, card);
      if result == Tie {
        replies := [TieRound(card.rank)];
      } else {
        replies := [RoundWon(result)];
      }
      // Both branches of the handler then make the card the last player
      // card and the next dealer card.
      lastPlayerCard := Some(card);
      dealerCard := Some(card);
      assert replies == [Announcement(result, card)];
      assert Valid();
      var shown := UniqueUsedCards(usedCards);
      var odds := Probabilities(deck, dealerCard.value);
      var shownAgain := UniqueUsedCards(usedCards);
      replies := replies + [UsedSoFar(shown), UpdatedOdds(odds), UsedSoFar(shownAgain), PlayerPrompt];
      assert replies == [Announcement(result, card), UsedSoFar(shown), UpdatedOdds(odds), UsedSoFar(shownAgain), PlayerPrompt];
      if |deck| == 0 {
        replies := replies + [DeckEmpty];
        return;
      }
    }

    /**
     * The block shared by `!dealer` and `!player`: exactly three tokens, then
     * a valid suit and rank, then the command's own rules.
     */
    method CardCommand(lowered: string, tokens: seq<string>) returns (replies: seq<Reply>)
      requires Valid()
      requires StartsWith(lowered, "!dealer") || StartsWith(lowered, "!player")
      modifies this
      ensures Valid()
      ensures CardBlock(old(Snapshot()), StartsWith(lowered, "!dealer"), tokens, replies)
      ensures old(usedCards) <= usedCards
    {
      if |tokens| != 3 {
        replies := [InvalidFormat];
        return;
      }
      var card := ParseCard(tokens[1], tokens[2]);
      if card.None? {
        replies := [InvalidCard];
        return;
      }
      if StartsWith(lowered, "!dealer") {
        replies := Dealer(card.value);
      } else if StartsWith(lowered, "!player") {
        replies := Player(card.value);
      }
    }

    /**
     * The commands that need no card: `!startgame`, `!hg` and `!reset`. Their
     * prefixes exclude one another, so at most one of them applies.
     */
    method SetupCommands(lowered: string) returns (replies: seq<Reply>)
      requires Valid()
      modifies this
      ensures Valid()
      ensures StartsWith(lowered, "!startgame") ==> Started() && replies == [GameStarted, RuleHint, SuitLegend]
      ensures StartsWith(lowered, "!hg") ==> Untouched() && replies == [SuitLegend]
      ensures StartsWith(lowered, "!reset") ==> Started() && replies == [GameStarted]
      ensures (!StartsWith(lowered, "!startgame") && !StartsWith(lowered, "!hg") && !StartsWith(lowered, "!reset")) ==>
        Untouched() && replies == []
    {
      PrefixesExclude(lowered, "!startgame", "!hg", 1);
      PrefixesExclude(lowered, "!startgame", "!reset", 1);
      PrefixesExclude(lowered, "!hg", "!reset", 1);
      replies := [];
      if StartsWith(lowered, "!startgame") {
        Restart();
        replies := replies + [GameStarted, RuleHint, SuitLegend];
      }
      if StartsWith(lowered, "!hg") {
        replies := replies + [SuitLegend];
      }
      if StartsWith(lowered, "!reset") {
        Restart();
        replies := replies + [GameStarted];
      }
    }

    /**
     * The commands that deal cards: `!dealercard`, then the card block for
     * messages starting with "!dealer" or "!player". A message starting with
     * "!dealercard" also starts with "!dealer", so after an inherited dealer
     * card that did not empty the deck it reaches the card block as well.
     */
    method CardCommands(lowered: string, tokens: seq<string>) returns (replies: seq<Reply>)
      requires Valid()
      modifies this
      ensures Valid()
      ensures (!StartsWith(lowered, "!dealer") && !StartsWith(lowered, "!player")) ==> Untouched() && replies == []
      ensures StartsWith(lowered, "!dealercard") ==> DealerCardThenBlock(old(Snapshot()), tokens, replies)
      ensures StartsWith(lowered, "!player") ==> CardBlock(old(Snapshot()), false, tokens, replies)
      ensures (StartsWith(lowered, "!dealer") && !StartsWith(lowered, "!dealercard")) ==>
        CardBlock(old(Snapshot()), true, tokens, replies)
      ensures old(usedCards) <= usedCards
    {
      PrefixesExclude(lowered, "!dealer", "!player", 1);
      if StartsWith(lowered, "!dealercard") {
        StartsWithShorter(lowered, "!dealer", "!dealercard");
      }
      ghost var before := Snapshot();
      replies := [];
      if StartsWith(lowered, "!dealercard") {
        var more, stop := DealerCard();
        replies := replies + more;
        if stop {
          return;
        }
        assert replies == InheritReplies(before);
      }
      if StartsWith(lowered, "!dealer") || StartsWith(lowered, "!player") {
        var more := CardCommand(lowered, tokens);
        ghost var prior := replies;
        replies := replies + more;
        assert replies[..|prior|] == prior && replies[|prior|..] == more;
      }
    }

    /** One chat message: the command checks run in turn on the lower-cased message. */
    method OnMessage(content: string) returns (replies: seq<Reply>)
      requires Valid()
      modifies this
      ensures Valid()
      ensures var lowered := Lower(content);
        (!StartsWith(lowered, "!startgame") && !StartsWith(lowered, "!hg") && !StartsWith(lowered, "!reset") &&
         !StartsWith(lowered, "!dealer") && !StartsWith(lowered, "!player")) ==> Untouched() && replies == []
      ensures StartsWith(Lower(content), "!startgame") ==> Started() && replies == [GameStarted, RuleHint, SuitLegend]
      ensures StartsWith(Lower(content), "!reset") ==> Started() && replies == [GameStarted]
      ensures StartsWith(Lower(content), "!hg") ==> Untouched() && replies == [SuitLegend]
      ensures StartsWith(Lower(content), "!dealercard") ==> DealerCardThenBlock(old(Snapshot()), PySplit(content), replies)
      ensures StartsWith(Lower(content), "!player") ==> CardBlock(old(Snapshot()), false, PySplit(content), replies)
      ensures (StartsWith(Lower(content), "!dealer") && !StartsWith(Lower(content), "!dealercard")) ==>
        CardBlock(old(Snapshot()), true, PySplit(content), replies)
      ensures (!StartsWith(Lower(content), "!startgame") && !StartsWith(Lower(content), "!reset")) ==>
        old(usedCards) <= usedCards
    {
      var lowered := Lower(content);
      PrefixesExclude(lowered, "!startgame", "!dealer", 1);
      PrefixesExclude(lowered, "!startgame", "!player", 1);
      PrefixesExclude(lowered, "!hg", "!dealer", 1);
      PrefixesExclude(lowered, "!hg", "!player", 1);
      PrefixesExclude(lowered, "!reset", "!dealer", 1);
      PrefixesExclude(lowered, "!reset", "!player", 1);
      ghost var before := Snapshot();
      replies := SetupCommands(lowered);
      ghost var setup := StartsWith(lowered, "!startgame") || StartsWith(lowered, "!hg") || StartsWith(lowered, "!reset");
      if !setup {
        assert Snapshot() == before && replies == [];
      }
      var more := CardCommands(lowered, PySplit(content));
      replies := replies + more;
      if !setup {
        assert replies == more;
      }
    }
  }
}
