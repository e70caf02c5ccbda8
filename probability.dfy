// The odds shown after each card: how many of the cards still in the deck
// rank strictly below and strictly above a reference card, each divided by
// the size of the deck. Counts are naturals and the quotients exact reals.

module Probability {
  import opened Cards

  /** Where a card's rank lies relative to a reference rank. */
  datatype Band = Below | Level | Above

  function BandOf(r: Rank, reference: Rank): (b: Band)
    ensures b == Below <==> r < reference
    ensures b == Above <==> r > reference
  {
    if r < reference then Below else if r > reference then Above else Level
  }

  /** How many cards of the deck lie in band b relative to the reference rank. */
  function CountBand(deck: seq<Card>, reference: Rank, b: Band): (n: nat)
    ensures n <= |deck|
  {
    if deck == [] then 0
    else (if BandOf(deck[0].rank, reference) == b then 1 else 0) + CountBand(deck[1..], reference, b)
  }

  function LowerCount(deck: seq<Card>, reference: Rank): nat {
    CountBand(deck, reference, Below)
  }

  function SameCount(deck: seq<Card>, reference: Rank): nat {
    CountBand(deck, reference, Level)
  }

  function HigherCount(deck: seq<Card>, reference: Rank): nat {
    CountBand(deck, reference, Above)
  }

  /** Every card is counted in exactly one band, so the three counts add up to the deck. */
  lemma {:induction false} BandsPartitionDeck(deck: seq<Card>, reference: Rank)
    ensures LowerCount(deck, reference) + SameCount(deck, reference) + HigherCount(deck, reference) == |deck|
  {
    if deck != [] {
      BandsPartitionDeck(deck[1..], reference);
    }
  }

  datatype Odds = Odds(lower: real, higher: real)

  /**
   * The chance that a card drawn from the deck ranks below, and above, the
   * dealer's card; both are zero for an empty deck rather than a division by zero.
   */
  function Probabilities(deck: seq<Card>, dealer: Card): Odds {
    var total := |deck|;
    if total > 0 then
      Odds(LowerCount(deck, dealer.rank) as real / total as real, HigherCount(deck, dealer.rank) as real / total as real)
    else
      Odds(0.0, 0.0)
  }

  /**
   * Both odds are probabilities that together leave room for a tie: each
   * lies in [0, 1] and their sum is at most 1. An empty deck gives zero
   * odds, and otherwise each odd is its count over the deck size.
   */
  lemma ProbabilitiesSpec(deck: seq<Card>, dealer: Card)
    ensures var p := Probabilities(deck, dealer);
      0.0 <= p.lower <= 1.0 && 0.0 <= p.higher <= 1.0 && p.lower + p.higher <= 1.0
    ensures |deck| == 0 ==> Probabilities(deck, dealer) == Odds(0.0, 0.0)
    ensures |deck| > 0 ==> Probabilities(deck, dealer).lower * |deck| as real == LowerCount(deck, dealer.rank) as real
    ensures |deck| > 0 ==> Probabilities(deck, dealer).higher * |deck| as real == HigherCount(deck, dealer.rank) as real
  {
    BandsPartitionDeck(deck, dealer.rank);
    if |deck| > 0 {
      Shares(LowerCount(deck, dealer.rank), HigherCount(deck, dealer.rank), |deck|);
    }
  }

  /** Two disjoint parts l and h of a whole t, taken as shares of t. */
  lemma Shares(l: nat, h: nat, t: nat)
    requires 0 < t && l + h <= t
    ensures 0.0 <= l as real / t as real && 0.0 <= h as real / t as real
    ensures l as real / t as real + h as real / t as real <= 1.0
    ensures (l as real / t as real) * t as real == l as real
    ensures (h as real / t as real) * t as real == h as real
  {
    var whole := t as real;
    var a, b := l as real / whole, h as real / whole;
    assert a * whole == l as real;
    assert b * whole == h as real;
    var sum := a + b;
    assert sum * whole == a * whole + b * whole;
    assert sum * whole == l as real + h as real;
    assert sum * whole <= 1.0 * whole;
  }

  /** Counting a concatenation is adding the counts of its parts. */
  lemma {:induction false} CountBandAppend(a: seq<Card>, b: seq<Card>, reference: Rank, band: Band)
    ensures CountBand(a + b, reference, band) == CountBand(a, reference, band) + CountBand(b, reference, band)
  {
    if a == [] {
      assert a + b == b;
    } else {
      assert (a + b)[0] == a[0];
      assert (a + b)[1..] == a[1..] + b;
      CountBandAppend(a[1..], b, reference, band);
    }
  }

  /** The cards of one suit from rank k on, counted per band. */
  lemma {:induction false} SuitRowBands(s: Suit, reference: Rank, k: nat)
    requires k <= 13
    ensures CountBand(SuitRow(s)[k..], reference, Below) == if k < reference then reference - k else 0
    ensures CountBand(SuitRow(s)[k..], reference, Level) == if k <= reference then 1 else 0
    ensures CountBand(SuitRow(s)[k..], reference, Above) == if k <= reference then 12 - reference else 13 - k
    decreases 13 - k
  {
    if k < 13 {
      var row := SuitRow(s)[k..];
      assert row[0] == Card(s, k);
      assert row[1..] == SuitRow(s)[k + 1..];
      SuitRowBands(s, reference, k + 1);
    }
  }

  /** The fresh deck holds 4 cards of each rank: 4r below rank r, 4 level with it, 4(12 - r) above. */
  lemma FullDeckBands(reference: Rank)
    ensures LowerCount(FullDeck(), reference) == 4 * reference
    ensures SameCount(FullDeck(), reference) == 4
    ensures HigherCount(FullDeck(), reference) == 4 * (12 - reference)
  {
    var a, b, c, d := SuitRow(Spades), SuitRow(Hearts), SuitRow(Diamonds), SuitRow(Clubs);
    forall band: Band
      ensures CountBand(FullDeck(), reference, band)
           == CountBand(a, reference, band) + CountBand(b, reference, band)
            + CountBand(c, reference, band) + CountBand(d, reference, band)
    {
      CountBandAppend(a + b + c, d, reference, band);
      CountBandAppend(a + b, c, reference, band);
      CountBandAppend(a, b, reference, band);
    }
    forall s: Suit
      ensures CountBand(SuitRow(s), reference, Below) == reference
      ensures CountBand(SuitRow(s), reference, Level) == 1
      ensures CountBand(SuitRow(s), reference, Above) == 12 - reference
    {
      SuitRowBands(s, reference, 0);
      assert SuitRow(s)[0..] == SuitRow(s);
    }
  }

  /** Removing a card lowers the count of its band by the number of copies removed. */
  lemma {:induction false} CountBandRemove(deck: seq<Card>, card: Card, reference: Rank, band: Band)
    ensures CountBand(RemoveCard(deck, card), reference, band)
         == CountBand(deck, reference, band) - (if BandOf(card.rank, reference) == band then multiset(deck)[card] else 0)
  {
    if deck != [] {
      assert deck == [deck[0]] + deck[1..];
      CountBandRemove(deck[1..], card, reference, band);
      var head := if deck[0] == card then [] else [deck[0]];
      CountBandAppend(head, RemoveCard(deck[1..], card), reference, band);
      assert multiset(deck)[card] == (if deck[0] == card then 1 else 0) + multiset(deck[1..])[card];
    }
  }

  /** Taking one card out of the fresh deck leaves 51 cards: 4r below it, 3 level, 4(12 - r) above. */
  lemma FullDeckLessOne(card: Card)
    ensures |RemoveCard(FullDeck(), card)| == 51
    ensures LowerCount(RemoveCard(FullDeck(), card), card.rank) == 4 * card.rank
    ensures SameCount(RemoveCard(FullDeck(), card), card.rank) == 3
    ensures HigherCount(RemoveCard(FullDeck(), card), card.rank) == 4 * (12 - card.rank)
  {
    var full := FullDeck();
    var deck := RemoveCard(full, card);
    FullDeckIsEveryCardOnce();
    RemoveCardCounts(full, card);
    assert |multiset(deck)| == |multiset(full)| - 1;
    FullDeckBands(card.rank);
    CountBandRemove(full, card, card.rank, Below);
    CountBandRemove(full, card, card.rank, Level);
    CountBandRemove(full, card, card.rank, Above);
  }

  /**
   * The odds shown for the first dealer card of a game: 4r/51 below and
   * 4(12 - r)/51 above for a card of rank r (40/51 and 8/51 for a queen).
   */
  lemma FirstDealerOdds(card: Card)
    ensures Probabilities(RemoveCard(FullDeck(), card), card)
         == Odds((4 * card.rank) as real / 51.0, (4 * (12 - card.rank)) as real / 51.0)
  {
    FullDeckLessOne(card);
    ProbabilitiesSpec(RemoveCard(FullDeck(), card), card);
    var p := Probabilities(RemoveCard(FullDeck(), card), card);
    assert p.lower * 51.0 == (4 * card.rank) as real;
    assert p.higher * 51.0 == (4 * (12 - card.rank)) as real;
  }
}
