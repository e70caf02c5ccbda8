// What the bots say back. Each constructor stands for one message sent to
// the channel; the card values and odds it carries are the structured
// content of that message, before any text or emoji rendering.

module Chat {
  import opened Cards
  import opened Probability

  datatype Reply =
    | GameStarted                 // "Game started! Enter `!dealercard` to start."
    | GameReset                   // bot.js: "Game has been reset! ..."
    | RuleHint                    // "Enter !hg to check the rule"
    | SuitLegend                  // the suit-to-symbol legend
    | DealerPrompt                // asks for `!dealer <suit> <rank>`
    | Inherited(card: Card)       // the dealer inherits the player's last card
    | DealerOdds(odds: Odds)      // "Based on dealer's card: Lower ..., Higher ..."
    | UpdatedOdds(odds: Odds)     // "Updated probabilities: Lower ..., Higher ..."
    | UsedSoFar(cards: seq<Card>) // "Cards that have been used so far:" and the list
    | PlayerPrompt                // asks for `!player <suit> <rank>`
    | DeckEmpty                   // "No more cards left in the deck!"
    | InvalidFormat               // the command is not three tokens
    | InvalidCard                 // unknown suit or rank
    | AlreadyUsed                 // the card has already been used
    | NoDealerCard                // "Please deal the Dealer's card first."
    | TieRound(rank: Rank)        // "It's a tie! Both Dealer and Player drew <rank>."
    | RoundWon(winner: Winner)    // "<Dealer|Player> wins this round!"

  /** The message that announces the outcome of a round. */
  function Announcement(w: Winner, player: Card): Reply {
    if w == Tie then TieRound(player.rank) else RoundWon(w)
  }

  /** The closing message a draw adds when it emptied the deck. */
  function EmptyNotice(deck: seq<Card>): seq<Reply> {
    if |deck| == 0 then [DeckEmpty] else []
  }
}
