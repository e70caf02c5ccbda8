// Cards of the high-card game: suits, ranks in their fixed order, the
// 52-card deck in the order it is built, removal of a card from a deck,
// the comparison that decides a round, and reading a card from its tokens.

module Cards {
  import opened Text

  datatype Option<T> = None | Some(value: T)

  /** The four suits, in the order both programs list them. */
  datatype Suit = Spades | Hearts | Diamonds | Clubs

  /** A rank is its index in the order 2 < 3 < ... < 10 < J < Q < K < A. */
  type Rank = r: nat | r < 13

  datatype Card = Card(suit: Suit, rank: Rank)

  const Suits: seq<Suit> := [Spades, Hearts, Diamonds, Clubs]
  const SuitNames: seq<string> := ["spades", "hearts", "diamonds", "clubs"]
  const RankNames: seq<string> := ["2", "3", "4", "5", "6", "7", "8", "9", "10", "J", "Q", "K", "A"]

  function SuitIndex(s: Suit): (i: nat)
    ensures i < 4 && Suits[i] == s
  {
    match s
    case Spades => 0
    case Hearts => 1
    case Diamonds => 2
    case Clubs => 3
  }

  predicate NoDup<T(==)>(s: seq<T>) {
    forall i, j :: 0 <= i < j < |s| ==> s[i] != s[j]
  }

  // ---------------------------------------------------------------------
  // The deck

  /** The thirteen cards of one suit, in rank order. */
  function SuitRow(s: Suit): seq<Card> {
    seq(13, r requires 0 <= r < 13 => Card(s, r))
  }

  /** The fresh deck: suit-major, each suit's ranks in order. */
  function FullDeck(): (deck: seq<Card>)
    ensures |deck| == 52
  {
    SuitRow(Spades) + SuitRow(Hearts) + SuitRow(Diamonds) + SuitRow(Clubs)
  }

  /** Position 13 * s + r of the fresh deck holds rank r of the s-th suit. */
  lemma FullDeckAt(s: nat, r: nat)
    requires s < 4 && r < 13
    ensures |FullDeck()| == 52
    ensures FullDeck()[13 * s + r] == Card(Suits[s], r)
  {
    var d := FullDeck();
    assert d[13 * s + r] == SuitRow(Suits[s])[r];
  }

  /** Position i of the fresh deck holds rank i % 13 of suit i / 13. */
  lemma FullDeckIndex()
    ensures |FullDeck()| == 52
    ensures forall i :: 0 <= i < 52 ==> FullDeck()[i] == Card(Suits[i / 13], i % 13)
  {
    forall i | 0 <= i < 52
      ensures FullDeck()[i] == Card(Suits[i / 13], i % 13)
    {
      FullDeckAt(i / 13, i % 13);
    }
  }

  /** The fresh deck holds every one of the 4 x 13 cards exactly once. */
  lemma FullDeckIsEveryCardOnce()
    ensures |FullDeck()| == 52
    ensures NoDup(FullDeck())
    ensures forall c: Card :: c in FullDeck()
    ensures forall c: Card :: multiset(FullDeck())[c] == 1
  {
    var d := FullDeck();
    FullDeckIndex();
    forall i, j | 0 <= i < j < 52
      ensures d[i] != d[j]
    {
      if i / 13 == j / 13 {
        assert i % 13 != j % 13;
      } else {
        assert Suits[i / 13] != Suits[j / 13];
      }
    }
    forall c: Card
      ensures c in d
    {
      FullDeckAt(SuitIndex(c.suit), c.rank);
    }
    forall c: Card
      ensures multiset(d)[c] == 1
    {
      NoDupOccursOnce(d, c);
    }
  }

  /** In a sequence without duplicates an element present occurs once. */
  lemma {:induction false} NoDupOccursOnce<T>(s: seq<T>, x: T)
    requires NoDup(s) && x in s
    ensures multiset(s)[x] == 1
  {
    assert s == [s[0]] + s[1..];
    assert NoDup(s[1..]) by {
      forall i, j | 0 <= i < j < |s[1..]| ensures s[1..][i] != s[1..][j] {
        assert s[1..][i] == s[i + 1] && s[1..][j] == s[j + 1];
      }
    }
    if s[0] == x {
      assert x !in s[1..] by {
        forall k | 0 <= k < |s[1..]| ensures s[1..][k] != x { assert s[1..][k] == s[k + 1]; }
      }
    } else {
      NoDupOccursOnce(s[1..], x);
    }
  }

  // ---------------------------------------------------------------------
  // Removing a card

  /** The deck with every card equal to `card` left out, in the original order. */
  function RemoveCard(deck: seq<Card>, card: Card): (r: seq<Card>)
    ensures |r| <= |deck|
  {
    if deck == [] then []
    else (if deck[0] == card then [] else [deck[0]]) + RemoveCard(deck[1..], card)
  }

  /** Removal takes out every copy of the card and leaves every other card as often as it was. */
  lemma {:induction false} RemoveCardCounts(deck: seq<Card>, card: Card)
    ensures multiset(RemoveCard(deck, card)) == multiset(deck)[card := 0]
  {
    if deck != [] {
      assert deck == [deck[0]] + deck[1..];
      RemoveCardCounts(deck[1..], card);
    }
  }

  /** The cards left are exactly the cards of the deck other than the removed one. */
  lemma RemoveCardMembers(deck: seq<Card>, card: Card)
    ensures forall c :: c in RemoveCard(deck, card) <==> c in deck && c != card
  {
    RemoveCardCounts(deck, card);
    forall c ensures c in RemoveCard(deck, card) <==> c in deck && c != card {
      assert c in RemoveCard(deck, card) <==> multiset(RemoveCard(deck, card))[c] > 0;
      assert c in deck <==> multiset(deck)[c] > 0;
    }
  }

  /** Removing a card that is absent leaves the deck as it is. */
  lemma {:induction false} RemoveCardAbsent(deck: seq<Card>, card: Card)
    requires card !in deck
    ensures RemoveCard(deck, card) == deck
  {
    if deck != [] {
      assert deck == [deck[0]] + deck[1..];
      RemoveCardAbsent(deck[1..], card);
    }
  }

  /** A deck without repeats keeps none after a removal. */
  lemma {:induction false} RemoveCardNoDup(deck: seq<Card>, card: Card)
    requires NoDup(deck)
    ensures NoDup(RemoveCard(deck, card))
  {
    if deck != [] {
      var tail := deck[1..];
      assert NoDup(tail) by {
        forall i, j | 0 <= i < j < |tail| ensures tail[i] != tail[j] {
          assert tail[i] == deck[i + 1] && tail[j] == deck[j + 1];
        }
      }
      assert deck[0] !in tail by {
        forall k | 0 <= k < |tail| ensures tail[k] != deck[0] { assert tail[k] == deck[k + 1]; }
      }
      RemoveCardNoDup(tail, card);
      RemoveCardMembers(tail, card);
      var rest := RemoveCard(tail, card);
      if deck[0] != card {
        assert RemoveCard(deck, card) == [deck[0]] + rest;
        forall i, j | 0 <= i < j < |rest| + 1 ensures ([deck[0]] + rest)[i] != ([deck[0]] + rest)[j] {
          if i == 0 {
            assert ([deck[0]] + rest)[j] == rest[j - 1];
          } else {
            assert ([deck[0]] + rest)[i] == rest[i - 1] && ([deck[0]] + rest)[j] == rest[j - 1];
          }
        }
      }
    }
  }

  /** Removing distributes over concatenation: it is a filter, so order is kept. */
  lemma {:induction false} RemoveCardAppend(a: seq<Card>, b: seq<Card>, card: Card)
    ensures RemoveCard(a + b, card) == RemoveCard(a, card) + RemoveCard(b, card)
  {
    if a == [] {
      assert a + b == b;
    } else {
      assert (a + b)[1..] == a[1..] + b;
      assert (a + b)[0] == a[0];
      RemoveCardAppend(a[1..], b, card);
    }
  }

  /**
   * A card held once, at position i, is cut out of the deck: the cards
   * before it and the cards after it keep their order.
   */
  lemma RemoveCardAt(deck: seq<Card>, i: nat)
    requires i < |deck| && deck[i] !in deck[..i] && deck[i] !in deck[i + 1..]
    ensures RemoveCard(deck, deck[i]) == deck[..i] + deck[i + 1..]
  {
    var card, before, after := deck[i], deck[..i], deck[i + 1..];
    var rest := deck[i..];
    assert deck == before + rest;
    assert rest[0] == card && rest[1..] == after;
    RemoveCardAppend(before, rest, card);
    RemoveCardAbsent(before, card);
    RemoveCardAbsent(after, card);
  }

  /** Removing a card twice is removing it once. */
  lemma RemoveCardIdempotent(deck: seq<Card>, card: Card)
    ensures RemoveCard(RemoveCard(deck, card), card) == RemoveCard(deck, card)
  {
    RemoveCardMembers(deck, card);
    RemoveCardAbsent(RemoveCard(deck, card), card);
  }

  // ---------------------------------------------------------------------
  // Deciding a round

  datatype Winner = Dealer | Player | Tie

  /** Who wins a round: the higher rank; suits never matter. */
  function CompareRanks(dealer: Card, player: Card): (w: Winner)
    ensures w == Dealer <==> dealer.rank > player.rank
    ensures w == Player <==> dealer.rank < player.rank
    ensures w == Tie <==> dealer.rank == player.rank
  {
    if dealer.rank > player.rank then Dealer
    else if dealer.rank < player.rank then Player
    else Tie
  }

  function Mirror(w: Winner): Winner {
    match w
    case Dealer => Player
    case Player => Dealer
    case Tie => Tie
  }

  /** Swapping the two cards swaps the winner; the suits play no part. */
  lemma CompareRanksAntisymmetric(a: Card, b: Card, s: Suit, t: Suit)
    ensures CompareRanks(b, a) == Mirror(CompareRanks(a, b))
    ensures CompareRanks(Card(s, a.rank), Card(t, b.rank)) == CompareRanks(a, b)
  {
  }

  // ---------------------------------------------------------------------
  // Reading a card from its two tokens

  function SuitName(s: Suit): string {
    SuitNames[SuitIndex(s)]
  }

  function RankName(r: Rank): string {
    RankNames[r]
  }

  /** The suit a lower-cased token names, if it is one of the four names. */
  function ParseSuit(tok: string): (r: Option<Suit>)
    ensures r.Some? <==> tok in SuitNames
    ensures r.Some? ==> SuitName(r.value) == tok
  {
    if tok == "spades" then Some(Spades)
    else if tok == "hearts" then Some(Hearts)
    else if tok == "diamonds" then Some(Diamonds)
    else if tok == "clubs" then Some(Clubs)
    else None
  }

  /** The rank an upper-cased token names: its index in the rank order. */
  function ParseRank(tok: string): (r: Option<Rank>)
    ensures r.Some? <==> tok in RankNames
    ensures r.Some? ==> RankName(r.value) == tok
  {
    RankFrom(tok, 0)
  }

  function RankFrom(tok: string, i: nat): (r: Option<Rank>)
    requires i <= 13
    ensures r.Some? <==> tok in RankNames[i..]
    ensures r.Some? ==> i <= r.value && RankNames[r.value] == tok
    decreases 13 - i
  {
    if i == 13 then None
    else if RankNames[i] == tok then Some(i)
    else
      assert RankNames[i..] == [RankNames[i]] + RankNames[i + 1..];
      RankFrom(tok, i + 1)
  }

  /** No two ranks share a name. */
  lemma RankNamesDistinct()
    ensures forall i, j :: 0 <= i < j < 13 ==> RankNames[i] != RankNames[j]
  {
    forall i, j | 0 <= i < j < 13
      ensures RankNames[i] != RankNames[j]
    {
      var a, b := RankNames[i], RankNames[j];
      assert a[|a| - 1] != b[|b| - 1];
    }
  }

  /** Every card's own names read back as that card. */
  lemma {:induction false} ParseNames(c: Card)
    ensures ParseSuit(SuitName(c.suit)) == Some(c.suit)
    ensures ParseRank(RankName(c.rank)) == Some(c.rank)
  {
    var r := ParseRank(RankName(c.rank));
    RankNamesDistinct();
    assert r.Some? && RankNames[r.value] == RankNames[c.rank];
  }

  /**
   * The card named by a suit token and a rank token: the suit is matched
   * lower-cased and the rank upper-cased; either failing rejects the card.
   */
  function ParseCard(suitTok: string, rankTok: string): (r: Option<Card>)
    ensures r.Some? <==> Lower(suitTok) in SuitNames && Upper(rankTok) in RankNames
    ensures r.Some? ==> SuitName(r.value.suit) == Lower(suitTok) && RankName(r.value.rank) == Upper(rankTok)
  {
    var suit := ParseSuit(Lower(suitTok));
    var rank := ParseRank(Upper(rankTok));
    if suit.Some? && rank.Some? then Some(Card(suit.value, rank.value)) else None
  }
}
