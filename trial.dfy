/**
 * One trial, `simulate_round` of main.c: two `my_rand` draws give a first
 * card and an index into the remaining 51 cards; the trial succeeds when the
 * two cards have the same rank.
 */
module Trial {
  import opened CTypes
  import opened Lcg
  import opened Deck

  /** The first card drawn by a trial that starts from `seed`. */
  function FirstCard(seed: uint32): (card: int)
    ensures IsCard(card)
  {
    Output(Next(seed)) % 52
  }

  /** The second-card index drawn by a trial that starts from `seed`. */
  function SecondIndex(seed: uint32): (index: int)
    ensures IsRemainingIndex(index)
  {
    Output(Next(Next(seed))) % 51
  }

  /** The seed after a trial: two generator steps. */
  function RoundSeed(seed: uint32): uint32 {
    Next(Next(seed))
  }

  /**
   * The outcome of a trial that starts from `seed`: it succeeds exactly when
   * the second card lies a whole number of suits away from the first.
   */
  function RoundHit(seed: uint32): (hit: bool)
    ensures var first := FirstCard(seed);
      hit <==> (first - SecondCard(first, SecondIndex(seed))) % 13 == 0
  {
    var first := FirstCard(seed);
    IsMatch(first, SecondCard(first, SecondIndex(seed)))
  }

  /**
   * A trial draws two distinct cards of the deck, and succeeds exactly when
   * their ranks agree.
   */
  lemma RoundDrawsDistinctCards(seed: uint32)
    ensures var first, second := FirstCard(seed), SecondCard(FirstCard(seed), SecondIndex(seed));
      IsCard(first) && IsCard(second) && first != second &&
      (RoundHit(seed) <==> first % 13 == second % 13)
  {
  }

  /** The seed after n trials. */
  function SeedAfter(seed: uint32, n: int): uint32
    decreases n
  {
    if n <= 0 then seed else RoundSeed(SeedAfter(seed, n - 1))
  }

  /** The number of successful trials among the first n trials from `seed`. */
  function Hits(seed: uint32, n: int): (h: nat)
    ensures h <= if n < 0 then 0 else n
    decreases n
  {
    if n <= 0 then 0
    else Hits(seed, n - 1) + (if RoundHit(SeedAfter(seed, n - 1)) then 1 else 0)
  }

  /**
   * `simulate_round`: draw the two cards from the generator, skipping the
   * first card for the second, and compare their ranks.
   */
  method SimulateRound(cell: SeedCell) returns (hit: bool)
    modifies cell
    ensures cell.seed == RoundSeed(old(cell.seed))
    ensures hit == RoundHit(old(cell.seed))
  {
    var r1 := cell.MyRand();
    var firstCard := r1 % 52;
    var r2 := cell.MyRand();
    var secondCardIndex := r2 % 51;
    var secondCard := secondCardIndex;
    if secondCard >= firstCard {
      secondCard := secondCard + 1;
    }
    var value1 := firstCard % 13;
    var value2 := secondCard % 13;
    hit := value1 == value2;
  }
}
