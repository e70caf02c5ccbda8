// The ledger of used cards and what it determines: its first-occurrence
// view (what the chat shows under "Cards that have been used so far"), and
// the deck that remains once every used card has been removed from the
// fresh deck. The deck and the used cards partition the 52 cards.

module Ledger {
  import opened Cards

  /**
   * The used cards with later repeats dropped, in order of first use: each
   * card is kept the first time it is met and skipped when it is already kept.
   */
  function Unique(used: seq<Card>): seq<Card> {
    if used == [] then []
    else
      var kept := Unique(used[..|used| - 1]);
      var last := used[|used| - 1];
      if last in kept then kept else kept + [last]
  }

  /** The shown cards repeat none and are exactly the used cards. */
  lemma {:induction false} UniqueSpec(used: seq<Card>)
    ensures NoDup(Unique(used))
    ensures forall c :: c in Unique(used) <==> c in used
    ensures |Unique(used)| <= |used|
  {
    if used != [] {
      var prefix, last := used[..|used| - 1], used[|used| - 1];
      assert used == prefix + [last];
      UniqueSpec(prefix);
    }
  }

  /** Where a card first occurs; the length of the sequence when it does not occur. */
  function FirstIndex(s: seq<Card>, x: Card): (i: nat)
    ensures i <= |s| && x !in s[..i]
    ensures i < |s| ==> s[i] == x
  {
    if s == [] then 0
    else if s[0] == x then 0
    else
      var i := 1 + FirstIndex(s[1..], x);
      assert s[..i] == [s[0]] + s[1..][..i - 1];
      i
  }

  /** Appending a card does not move where the earlier cards first occur. */
  lemma FirstIndexAppend(s: seq<Card>, c: Card, x: Card)
    requires x in s
    ensures FirstIndex(s + [c], x) == FirstIndex(s, x)
  {
    var a, b := FirstIndex(s + [c], x), FirstIndex(s, x);
    assert s[..|s|] == s;
    assert (s + [c])[..b] == s[..b];
    assert (s + [c])[b] == x;
  }

  /** The shown cards are in order of their first use. */
  lemma {:induction false} UniqueInFirstUseOrder(used: seq<Card>)
    ensures forall i, j :: 0 <= i < j < |Unique(used)| ==> FirstIndex(used, Unique(used)[i]) < FirstIndex(used, Unique(used)[j])
  {
    if used != [] {
      var prefix, last := used[..|used| - 1], used[|used| - 1];
      assert used == prefix + [last];
      var kept := Unique(prefix);
      UniqueSpec(prefix);
      UniqueInFirstUseOrder(prefix);
      forall x | x in prefix ensures FirstIndex(used, x) == FirstIndex(prefix, x) {
        FirstIndexAppend(prefix, last, x);
      }
      if last !in kept {
        assert last !in prefix;
        assert FirstIndex(used, last) == |prefix| by {
          assert used[..|prefix|] == prefix;
          assert prefix[..|prefix|] == prefix;
        }
      }
    }
  }

  /** A ledger that never repeats a card is shown as it is. */
  lemma {:induction false} UniqueOfNoDup(used: seq<Card>)
    requires NoDup(used)
    ensures Unique(used) == used
  {
    if used != [] {
      var prefix, last := used[..|used| - 1], used[|used| - 1];
      assert NoDup(prefix) by {
        forall i, j | 0 <= i < j < |prefix| ensures prefix[i] != prefix[j] { assert prefix[i] == used[i] && prefix[j] == used[j]; }
      }
      UniqueOfNoDup(prefix);
      assert last !in prefix by {
        forall k | 0 <= k < |prefix| ensures prefix[k] != last { assert prefix[k] == used[k]; }
      }
      assert used == prefix + [last];
    }
  }

  // ---------------------------------------------------------------------
  // The deck left by a ledger

  /** The fresh deck with each used card removed in turn. */
  function Remaining(used: seq<Card>): seq<Card> {
    if used == [] then FullDeck()
    else RemoveCard(Remaining(used[..|used| - 1]), used[|used| - 1])
  }

  /** Drawing a card removes it from the deck and records it in the ledger. */
  lemma RemainingAppend(used: seq<Card>, c: Card)
    ensures Remaining(used + [c]) == RemoveCard(Remaining(used), c)
  {
    assert (used + [c])[..|used|] == used;
  }

  /**
   * Deck and ledger partition the 52 cards: the deck holds each card at most
   * once, exactly the cards never used, and the deck plus the distinct used
   * cards number 52.
   */
  lemma {:induction false} Partition(used: seq<Card>)
    ensures NoDup(Remaining(used))
    ensures forall c :: c in Remaining(used) <==> c !in used
    ensures |Remaining(used)| + |Unique(used)| == 52
  {
    FullDeckIsEveryCardOnce();
    if used != [] {
      var prefix, last := used[..|used| - 1], used[|used| - 1];
      assert used == prefix + [last];
      Partition(prefix);
      UniqueSpec(prefix);
      var deck := Remaining(prefix);
      RemoveCardCounts(deck, last);
      RemoveCardMembers(deck, last);
      RemoveCardNoDup(deck, last);
      if last !in prefix {
        NoDupOccursOnce(deck, last);
        assert |multiset(RemoveCard(deck, last))| == |multiset(deck)| - 1;
      }
    }
  }

  /** Drawing an unused card shrinks the deck by exactly one. */
  lemma DrawUnused(used: seq<Card>, c: Card)
    requires c !in used
    ensures c in Remaining(used)
    ensures |Remaining(used + [c])| + 1 == |Remaining(used)|
  {
    Partition(used);
    Partition(used + [c]);
    UniqueSpec(used);
    assert Unique(used + [c]) == Unique(used) + [c] by {
      assert (used + [c])[..|used|] == used;
    }
  }

  /** Recording a card that is already used leaves the deck as it was. */
  lemma RedrawUsed(used: seq<Card>, c: Card)
    requires c in used
    ensures Remaining(used + [c]) == Remaining(used)
  {
    Partition(used);
    RemainingAppend(used, c);
    RemoveCardAbsent(Remaining(used), c);
  }

  /** The deck is empty exactly when all 52 cards have been used. */
  lemma Exhausted(used: seq<Card>)
    ensures |Remaining(used)| == 0 <==> forall c: Card :: c in used
  {
    Partition(used);
    if |Remaining(used)| != 0 {
      assert Remaining(used)[0] !in used;
    }
  }
}
