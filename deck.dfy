/**
 * The card arithmetic of `simulate_round` in main.c: cards are the numbers
 * 0..51, a card's rank is its value modulo 13 (13 ranks, 4 suits), and the
 * second card is drawn as an index into the 51 cards that remain once the
 * first card is gone.
 */
module Deck {
  const DECK_SIZE: int := 52
  const RANKS: int := 13

  predicate IsCard(c: int) {
    0 <= c < DECK_SIZE
  }

  /** Indices into the 51 cards left after the first draw. */
  predicate IsRemainingIndex(i: int) {
    0 <= i < DECK_SIZE - 1
  }

  /** A card's rank, ignoring its suit. */
  function Rank(card: int): (r: int)
    requires IsCard(card)
    ensures 0 <= r < RANKS
  {
    card % 13
  }

  /**
   * Two cards match when their ranks are equal, that is, when they lie a
   * whole number of suits (13 cards) apart.
   */
  function IsMatch(first: int, second: int): (r: bool)
    requires IsCard(first) && IsCard(second)
    ensures r <==> (first - second) % 13 == 0
  {
    Rank(first) == Rank(second)
  }

  /**
   * The card that the second index denotes: indices at or above the first
   * card are shifted up by one, skipping the first card.
   */
  function SecondCard(first: int, index: int): (card: int)
    requires IsCard(first) && IsRemainingIndex(index)
    ensures IsCard(card) && card != first
  {
    if index >= first then index + 1 else index
  }

  /** The index that denotes a given card other than the first one. */
  function IndexOfCard(first: int, card: int): (index: int)
    requires IsCard(first) && IsCard(card) && card != first
    ensures IsRemainingIndex(index) && SecondCard(first, index) == card
  {
    if card > first then card - 1 else card
  }

  /** Distinct indices denote distinct cards. */
  lemma SecondCardInjective(first: int, i: int, j: int)
    requires IsCard(first) && IsRemainingIndex(i) && IsRemainingIndex(j)
    ensures SecondCard(first, i) == SecondCard(first, j) <==> i == j
  {
  }

  /** IndexOfCard recovers the index a card was drawn by. */
  lemma IndexOfSecondCard(first: int, index: int)
    requires IsCard(first) && IsRemainingIndex(index)
    ensures IndexOfCard(first, SecondCard(first, index)) == index
  {
  }

  /** The 51 indices denote exactly the deck without the first card. */
  lemma SecondCardImage(first: int)
    requires IsCard(first)
    ensures (set i | 0 <= i < DECK_SIZE - 1 :: SecondCard(first, i))
         == (set c | 0 <= c < DECK_SIZE && IsCard(c) && c != first)
  {
    var image := set i | 0 <= i < DECK_SIZE - 1 :: SecondCard(first, i);
    forall c | IsCard(c) && c != first
      ensures c in image
    {
      var i := IndexOfCard(first, c);
      assert SecondCard(first, i) == c;
    }
  }

  /** The number of cards c with lo <= c < hi whose rank is r. */
  function CountRank(r: int, lo: int, hi: int): nat
    decreases hi - lo
  {
    if hi <= lo then 0
    else CountRank(r, lo, hi - 1) + (if (hi - 1) % 13 == r then 1 else 0)
  }

  lemma {:induction false} CountRankSplit(r: int, lo: int, mid: int, hi: int)
    requires lo <= mid <= hi
    ensures CountRank(r, lo, hi) == CountRank(r, lo, mid) + CountRank(r, mid, hi)
    decreases hi - mid
  {
    if hi > mid {
      CountRankSplit(r, lo, mid, hi - 1);
    }
  }

  lemma {:induction false} CountRankNone(r: int, lo: int, hi: int)
    requires forall c :: lo <= c < hi ==> c % 13 != r
    ensures CountRank(r, lo, hi) == 0
    decreases hi - lo
  {
    if hi > lo {
      CountRankNone(r, lo, hi - 1);
    }
  }

  lemma SuitOffset(base: int, c: int)
    requires 0 <= base && base % 13 == 0 && base <= c < base + 13
    ensures c % 13 == c - base
  {
    var k := base / 13;
    assert base == 13 * k;
    assert c == 13 * k + (c - base);
  }

  /** Each run of 13 consecutive cards starting at a suit boundary holds each rank once. */
  lemma CountRankSuit(r: int, base: int)
    requires 0 <= r < RANKS && 0 <= base && base % 13 == 0
    ensures CountRank(r, base, base + 13) == 1
  {
    CountRankSplit(r, base, base + r, base + 13);
    CountRankSplit(r, base + r, base + r + 1, base + 13);
    forall c | base <= c < base + 13
      ensures c % 13 == c - base
    {
      SuitOffset(base, c);
    }
    assert CountRank(r, base + r, base + r + 1) == 1 by {
      SuitOffset(base, base + r);
    }
    CountRankNone(r, base, base + r);
    CountRankNone(r, base + r + 1, base + 13);
  }

  /** The first k suits of the deck hold k cards of each rank. */
  lemma {:induction false} CountRankSuits(r: int, k: nat)
    requires 0 <= r < RANKS
    ensures CountRank(r, 0, 13 * k) == k
  {
    if k > 0 {
      CountRankSuits(r, k - 1);
      CountRankSplit(r, 0, 13 * (k - 1), 13 * k);
      CountRankSuit(r, 13 * (k - 1));
    }
  }

  /** Every rank occurs on exactly four cards of the deck. */
  lemma FourPerRank(r: int)
    requires 0 <= r < RANKS
    ensures CountRank(r, 0, DECK_SIZE) == 4
  {
    CountRankSuits(r, 4);
  }

  /** The number of indices i < n whose second card matches the first card's rank. */
  function CountMatches(first: int, n: int): (m: nat)
    requires IsCard(first) && 0 <= n <= DECK_SIZE - 1
    ensures m <= n
  {
    if n == 0 then 0
    else CountMatches(first, n - 1) + (if IsMatch(first, SecondCard(first, n - 1)) then 1 else 0)
  }

  lemma {:induction false} MatchesBelowFirst(first: int, n: int)
    requires IsCard(first) && 0 <= n <= first && n <= DECK_SIZE - 1
    ensures CountMatches(first, n) == CountRank(Rank(first), 0, n)
  {
    if n > 0 {
      MatchesBelowFirst(first, n - 1);
    }
  }

  lemma {:induction false} MatchesAboveFirst(first: int, n: int)
    requires IsCard(first) && first <= n <= DECK_SIZE - 1
    ensures CountMatches(first, n)
         == CountRank(Rank(first), 0, first) + CountRank(Rank(first), first + 1, n + 1)
    decreases n
  {
    if n == first {
      MatchesBelowFirst(first, n);
    } else {
      MatchesAboveFirst(first, n - 1);
    }
  }

  /**
   * Whatever the first card, exactly 3 of the 51 second-card indices give a
   * card of the same rank: the 3/51 the program reports as the theoretical
   * probability.
   */
  lemma ThreeOfFiftyOne(first: int)
    requires IsCard(first)
    ensures CountMatches(first, DECK_SIZE - 1) == 3
  {
    var r := Rank(first);
    MatchesAboveFirst(first, DECK_SIZE - 1);
    FourPerRank(r);
    CountRankSplit(r, 0, first, DECK_SIZE);
    CountRankSplit(r, first, first + 1, DECK_SIZE);
    assert CountRank(r, first, first + 1) == 1;
  }
}
