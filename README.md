# High-card game: a Dafny model

Two chat bots, `Cache.py` (Python) and `bot.js` (JavaScript), run the same
"high-card" guessing game. A dealer card is named. The bot shows the odds
that the next card drawn from the remaining deck ranks lower or higher. A
player then names a card, and the higher rank wins the round. The player's
card is then carried over as the next dealer card. Suits never matter; ranks
are ordered 2 < 3 < … < 10 < J < Q < K < A.

Both bots keep the game in module globals:

- the deck of undrawn cards;
- the list of used cards;
- the dealer card and the last player card;
- in `Cache.py` only, a round number.

Chat commands change these globals: `!startgame`, `!reset`, `!hg`,
`!dealercard`, `!dealer <suit> <rank>` and `!player <suit> <rank>`.

The model is split into these modules:

- `Text` (`text.dfy`): ASCII case folding, `startswith`, and the two
  tokenisers. These are Python's `str.split()` and JavaScript's
  `trim().split(/ +/)`.
- `Cards` (`cards.dfy`):
  - cards, suits and ranks;
  - the 52-card deck in build order;
  - `remove_card` / `removeCard`;
  - `compare_ranks` / `compareRanks`;
  - reading a card from its suit and rank tokens.
- `Probability` (`probability.dfy`): `calculate_probabilities` /
  `calculateProbabilities`. It uses natural counts of strictly lower and
  strictly higher ranks, and exact `real` quotients.
- `Ledger` (`ledger.dfy`):
  - the first-occurrence view of the used cards (`display_unique_used_cards`);
  - the deck a ledger leaves, `Remaining(used)`, which is the fresh deck with
    every used card removed;
  - the partition of the 52 cards between deck and ledger.
- `Chat` (`chat.dfy`): one `Reply` constructor per message the bots send. A
  reply carries the cards and odds of its message rather than their text.
- `CacheGame` (`cache_game.dfy`): the globals of `Cache.py` as a class `Bot`,
  with one method per command and `OnMessage` for the whole handler.
- `BotGame` (`bot_game.dfy`): the same for `bot.js`.

Each pure helper has the same meaning in both programs, so each is
defined once, in `Cards`, `Probability` or `Ledger`. Each class keeps the
invariant `Valid()`. It says:

- the deck is exactly `Remaining(usedCards)`, so deck and used cards
  partition the 52 cards (`Ledger.Partition`);
- the remembered dealer card and last player card are used cards;
- in `Cache.py`, the round number is 1.

Every command method preserves `Valid()`, and its contract gives the new
globals and the replies for every message it handles. The effects are stated
against a snapshot `Globals` of the globals before the command. For
`!dealercard` in `Cache.py`, the card block that follows is stated against
the globals as the inherit left them (`Inherit`).

The two handlers differ, and each is modelled as written:

- `Cache.py` tests each command with `startswith` on the lower-cased
  message, one test after another. A message starting with `!dealercard`
  therefore also starts with `!dealer`. After an inherited dealer card that
  leaves cards in the deck, the card block runs as well. For a one-word
  message that block answers "Invalid format" (`CacheGame.Bot.OnMessage`).
- `bot.js` requires the message to equal `!dealer` exactly, but then rejects
  any message that is not three arguments. Its dealer branch with a card can
  never run, so no dealer card is ever set, and every `!player` is refused.
  From a started game, the game never leaves its starting state, whatever
  messages arrive (`BotGame.Bot.OnMessage`, `BotGame.Bot.Replay`).
- `Cache.py` answers `!reset` with the "Game started!" message, and
  `bot.js` answers it with "Game has been reset!".
- When the deck is already empty, `Cache.py` returns after the inherit of
  `!dealercard`, and `bot.js` does not. The inherit itself never changes the
  deck: the inherited card was drawn before. Nothing later in the `bot.js`
  handler matches `!dealercard`, so the difference is invisible there.

The code has no per-user sessions, no game-over phase, no round counting and
no "card not in deck" error; the model follows the code. There is one set of
globals, the round number stays 1, and removing a card that is absent leaves
the deck unchanged.

## Model

| member | source | states |
|---|---|---|
| `Cards.FullDeck` | Cache.py:14-18 | The fresh deck, 52 cards built suit by suit; its order and contents are given by `FullDeckIndex` and `FullDeckIsEveryCardOnce`. |
| `Cards.FullDeckIndex` | Cache.py:14-18 | The fresh deck is suit-major: position i holds rank i % 13 of the suit at index i / 13, in the order spades, hearts, diamonds, clubs. |
| `Cards.FullDeckIsEveryCardOnce` | Cache.py:17 | The fresh deck has 52 cards, no repeats, and every (suit, rank) card exactly once. |
| `BotGame.InitializeDeck` | bot.js:20-44 | The two nested loops push exactly the fresh deck, in the same suit-major order. |
| `Cards.RemoveCard` | Cache.py:21-22 | The cards of the deck other than the given one, in order; never longer than the deck. Its contents are given by the `RemoveCard…` lemmas. |
| `Cards.RemoveCardCounts` | Cache.py:21-22 | Removal takes out every copy of the card and leaves every other card as often as it was (as multisets). |
| `Cards.RemoveCardMembers` | bot.js:47-49 | The cards left are exactly the deck's cards other than the removed one. |
| `Cards.RemoveCardAbsent` | Cache.py:22 | Removing a card that is not in the deck leaves the deck unchanged. |
| `Cards.RemoveCardNoDup` | bot.js:48 | A deck without repeats has none after a removal. |
| `Cards.RemoveCardAppend` | Cache.py:21-22 | Removal is a filter: it distributes over concatenation, so the kept cards stay in order. |
| `Cards.RemoveCardAt` | bot.js:47-49 | A card held once at position i is cut out, and the cards before and after it keep their order. |
| `Cards.RemoveCardIdempotent` | bot.js:47-49 | Removing a card twice is the same as removing it once. |
| `Cards.CompareRanks` | Cache.py:53-63 | Dealer wins iff the dealer's rank is higher, Player wins iff it is lower, and it is a Tie iff the ranks are equal. |
| `Cards.CompareRanksAntisymmetric` | bot.js:99-125 | Swapping the two cards swaps Dealer and Player and keeps Tie. Changing either suit never changes the result. |
| `Cards.ParseSuit` | Cache.py:133 | A lower-cased token gives a suit iff it is one of the four suit names, and the suit's name is that token. |
| `Cards.ParseRank` | bot.js:234 | An upper-cased token gives a rank iff it is one of the thirteen rank names, and the rank's name is that token. |
| `Cards.ParseNames` | Cache.py:83-84 | Every card's own suit name and rank name read back as that card. |
| `Cards.ParseCard` | Cache.py:130-137 | The suit token is compared lower-cased and the rank token upper-cased. A card results iff both are valid names, and it carries exactly those names. |
| `Probability.BandsPartitionDeck` | Cache.py:29-32 | Each card is counted as lower, level or higher. The three counts add up to the deck size, so same-rank cards count only in the total. |
| `Probability.CountBand` | Cache.py:29-30 | The number of cards of the deck strictly below, level with, or strictly above a rank; at most the deck size. |
| `Probability.Probabilities` | Cache.py:25-36 | The lower and higher odds against the dealer's card, 0 for an empty deck; its meaning is stated by `ProbabilitiesSpec`. |
| `Probability.ProbabilitiesSpec` | Cache.py:25-36 | Both odds lie in [0, 1] and their sum is at most 1. Both are 0 for an empty deck. Otherwise each odd times the deck size is the number of cards strictly below (or strictly above) the dealer's rank. |
| `Probability.FullDeckBands` | bot.js:68-75 | In the fresh deck, 4r cards rank below rank r, 4 are level with it and 4(12 - r) rank above it. |
| `Probability.CountBandRemove` | bot.js:70-75 | Removing a card lowers the count of its band by the number of copies removed, and leaves the other counts alone. |
| `Probability.FullDeckLessOne` | Cache.py:145-148 | After a first dealer card of rank r, 51 cards remain: 4r lower, 3 level, 4(12 - r) higher. |
| `Probability.FirstDealerOdds` | bot.js:52-82 | The odds shown for the first dealer card of rank r are exactly 4r/51 lower and 4(12 - r)/51 higher. |
| `Ledger.Unique` | Cache.py:44-48 | The used cards with later repeats dropped, in first-use order; characterised by `UniqueSpec` and `UniqueInFirstUseOrder`. |
| `Ledger.UniqueSpec` | Cache.py:44-48 | The shown used cards have no repeats, they are exactly the cards of the used list, and there are no more of them than used cards. |
| `Ledger.UniqueInFirstUseOrder` | bot.js:91-96 | The shown cards appear in the order in which each was first used. |
| `Ledger.UniqueOfNoDup` | bot.js:92-94 | A used list without repeats is shown as it is. |
| `CacheGame.UniqueUsedCards` | Cache.py:45-48 | The loop that skips cards already kept builds exactly the first-occurrence view of the used list. |
| `Ledger.Partition` | Cache.py:145-146 | The deck left by a ledger has no repeats, and it holds a card iff the ledger does not. Deck size plus the number of distinct used cards is 52. |
| `Ledger.DrawUnused` | Cache.py:166-167 | An unused card is in the deck, and drawing it shrinks the deck by exactly one. |
| `Ledger.RedrawUsed` | Cache.py:116-117 | Recording a used card a second time leaves the deck as it was. |
| `Ledger.Exhausted` | Cache.py:123-125 | The deck is empty exactly when all 52 cards have been used. |
| `Text.PySplit` | Cache.py:129 | `str.split()` gives non-empty words without whitespace. |
| `Text.PySplitWord` | Cache.py:129 | A non-empty text without whitespace splits into itself alone. |
| `Text.PySplitAtSpace` | Cache.py:129 | Splitting cuts at every whitespace character: the words of a, a whitespace character, then b are the words of a followed by those of b. With `PySplitWord` this fixes the split of every text. |
| `Text.JsArgs` | bot.js:141 | The args of a message: its trimmed text split on runs of spaces. Like every `split` result, it has at least one element. |
| `Text.JsArgsTrimmed` | bot.js:141 | `trim()` removes exactly the whitespace around a text that neither starts nor ends with whitespace, and the args are the split of that text. |
| `Text.SplitOnSpacesWord` | bot.js:141 | A text without spaces is a single field. |
| `Text.SplitOnSpacesAtRun` | bot.js:141 | `split(/ +/)` cuts at every maximal run of spaces: a spaceless field, a run of spaces and a rest not starting with a space give that field followed by the fields of the rest. With `SplitOnSpacesWord` this fixes the split of every text. |
| `Text.DealerCommandHasOneArg` | bot.js:141 | A message whose lower-cased form is exactly "!dealer" splits into one argument, so the three-argument check rejects it. |
| `CacheGame.Bot.constructor` | Cache.py:66-70 | The globals at load: the fresh deck, no used cards, round 1, and neither remembered card set. |
| `CacheGame.Bot.Restart` | Cache.py:86-91 | `!startgame` and `!reset` restore the fresh deck, no used cards, round 1, and clear both remembered cards. |
| `CacheGame.Bot.Record` | Cache.py:145-146 | Removing a card from the deck and appending it to the used cards keeps the deck equal to what the ledger leaves. A used card leaves the deck as it is (as at Cache.py:116-117); an unused one shrinks it by one. Nothing else changes. |
| `CacheGame.Bot.DealerCard` | Cache.py:107-125 | Without a last player card, only a prompt is sent and the handler stops. Otherwise that card becomes the dealer card and is recorded again. The deck is unchanged and the last player card is cleared. The replies are the inherited card, the odds, the shown ledger and, for an empty deck, a notice. The handler stops iff the deck is empty. |
| `CacheGame.Bot.Dealer` | Cache.py:139-155 | The card becomes the dealer card even when it is rejected as already used, and then nothing else changes. Otherwise it is removed from the deck and appended to the used cards, and the odds against it are shown. |
| `CacheGame.Bot.Player` | Cache.py:157-165 | Without a dealer card, or for a used card, nothing changes and the matching refusal is sent. Otherwise a round is played. |
| `CacheGame.Bot.Round` | Cache.py:166-189 | The card is drawn and recorded, the outcome against the dealer card is announced, and the card becomes both the dealer card and the last player card on every outcome. The ledger is shown twice, with the updated odds between. |
| `CacheGame.Bot.CardCommand` | Cache.py:127-192 | Not three tokens gives "Invalid format" and an invalid suit or rank gives "Invalid card", both with no change. Otherwise the dealer or player rules apply, by the message's prefix. |
| `CacheGame.Bot.SetupCommands` | Cache.py:86-105 | `!startgame` and `!reset` restart the game and `!hg` shows the legend. Their prefixes exclude one another, and any other message changes nothing and gets no reply. |
| `CacheGame.Bot.CardCommands` | Cache.py:107-192 | A message starting with neither "!dealer" nor "!player" changes nothing. `!dealercard…` without a last player card only prompts. Otherwise the card is inherited; with an empty deck the handler stops there, and otherwise the dealer's card block runs on the globals the inherit left. `!player…` and other `!dealer…` messages follow the card-block rules. The used list only grows. |
| `CacheGame.Bot.OnMessage` | Cache.py:77-192 | The effect of each command, by prefix: start, reset and legend; `!dealercard…` with its prompt, or its inherit followed by the dealer's card block on the inherited globals; and the card block for other `!dealer…` and for `!player…`. Anything else changes nothing. Except on start and reset, the used list only grows. |
| `BotGame.Bot.constructor` | bot.js:128-131 | The globals at load: the fresh deck, no used cards, and neither remembered card set. |
| `BotGame.Bot.Restart` | bot.js:143-147 | `!startgame` and `!reset` rebuild the fresh deck, empty the used cards and clear both remembered cards. |
| `BotGame.Bot.Record` | bot.js:291-292 | Removing a card from the deck and pushing it to the used cards keeps the deck equal to what the ledger leaves. A used card leaves the deck as it is (as at bot.js:185-186); an unused one shrinks it by one. Nothing else changes. |
| `BotGame.Bot.DealerCard` | bot.js:171-201 | Without a last player card, only a prompt is sent. Otherwise that card becomes the dealer card and is recorded again, the deck is unchanged, the last player card is cleared, and the odds and ledger are shown. |
| `BotGame.Bot.Dealer` | bot.js:243-276 | As in `Cache.py`: the card becomes the dealer card even when rejected as used. Otherwise it is drawn and recorded, and the odds are shown. |
| `BotGame.Bot.Player` | bot.js:278-289 | Without a dealer card, or for a used card, nothing changes and the matching refusal is sent. Otherwise a round is played. |
| `BotGame.Bot.Round` | bot.js:291-328 | The card is drawn and recorded, the outcome is announced, and the card becomes the dealer card and the last player card on every outcome. The ledger is shown once, then the updated odds. |
| `BotGame.Bot.CardCommand` | bot.js:203-330 | Not three arguments gives "Invalid format" and an invalid suit or rank gives "Invalid card", both with no change. Otherwise the dealer branch runs for exactly "!dealer" and the player branch for a "!player" prefix. |
| `BotGame.Bot.SetupCommands` | bot.js:143-169 | A message equal to "!startgame" or "!reset" restarts the game, and one equal to "!hg" shows the legend. Any other message changes nothing and gets no reply. |
| `BotGame.Bot.CardCommands` | bot.js:171-330 | "!dealercard" prompts without a last player card and otherwise has the dealer inherit it, with the globals, odds and ledger of `DealerCard`. A message equal to "!dealer" gets "Invalid format" and changes nothing. `!player…` follows the card-block rules. A started game stays started and sends only idle replies. |
| `BotGame.Bot.OnMessage` | bot.js:137-331 | The effect of each command, matched exactly except `!player`: start, reset, legend, the prompt or inherit of "!dealercard", and the card block for `!player…`. A message equal to "!dealer" always gets "Invalid format" and changes nothing. Anything else changes nothing. A started game stays in its starting state and sends only idle replies. |
| `BotGame.Bot.Replay` | bot.js:203-212 | Over any sequence of messages from a started game, no card is ever drawn and no round is ever decided. |

## Left out

- The Discord client, its events and login, and sending messages. Each
  `channel.send` becomes one `Reply` value in the order sent. The handlers
  are `async`, and the model treats each message as handled atomically,
  without interleaving at `await` points. The console log of each
  received message (`bot.js:138`) is left out too.
- Ignoring messages by author: `Cache.py:80-81` skips the bot's own
  messages, and `bot.js:139` skips messages from every bot. The model's
  `OnMessage` receives only the messages that pass these tests.
- Percentage formatting (`:.2f`, `toFixed(2)`). The odds are exact reals,
  not floats.
- Rendering a card with suit emoji, and joining the shown cards with
  newlines. `UsedSoFar` carries the card sequence itself.
- `Text.Lower`: case folding is ASCII-only, while Python's `str.lower` /
  `str.upper` and JavaScript's `toLowerCase` / `toUpperCase` also map
  non-ASCII letters. This changes no test the handlers make. Lower-casing
  yields an ASCII letter from only two non-ASCII characters. U+0130 gives
  "i" followed by U+0307, so a combining mark remains. U+212A gives "k",
  which no command word or suit name contains. Upper-casing yields ASCII
  letters only as "I" (U+0131), "S" (U+017F), "SS", "FF", "FI", "FL", "FFI",
  "FFL" and "ST" (U+00DF and the ligatures U+FB00-U+FB06), or with another
  non-ASCII character left over (a combining mark, or the modifier letter
  in U+0149 → "ʼN" and U+1E9A → "Aʾ"), and none of these is a rank name. So the
  command, suit and rank tests decide exactly as in the two programs. The
  folded text itself differs from theirs for non-ASCII input.
- Cards are compared as values. This stands for Python dict equality, for
  `bot.js` comparing suit and rank fields, and for `bot.js` comparing
  `JSON.stringify` forms in `displayUniqueUsedCards` (`bot.js:92`). The
  string form depends on key order, so all three agree on the cards
  `bot.js` builds, all of which list `suit` before `rank` (`bot.js:40`,
  `bot.js:241`). `dealerCard = lastPlayerCard` (`bot.js:173`) copies a
  reference to such a card.
- Sessions per user, a game-over phase and round counting are not modelled,
  because the code does not have them.
