# Two top cards of the same rank: a model of the threaded Monte Carlo demo

The program estimates the chance that two cards drawn from a 52-card deck
have the same rank. It splits `total_rounds` trials among `num_threads`
POSIX threads. Every thread plays its share of trials with its own
linear congruential generator. It then adds its success count to a global
counter under a mutex, and `main` reads that counter after joining all the
threads.

This Dafny project models the sequential logic of `main.c`:

- `Lcg` (`lcg.dfy`): `my_rand`. It is the step
  `seed := seed * 1103515245 + 12345 (mod 2^32)` and returns
  `(seed / 65536) % 32768`. The `unsigned int` whose address is passed
  around is the class `SeedCell`. The step is shown to be a permutation of the
  2^32 seeds: its inverse uses the multiplier's inverse 4005161829.
- `Deck` (`deck.dfy`): cards `0..51` and rank `card % 13`. It models the skip
  map that turns an index in `[0, 51)` into a second card different from the
  first. Its main result is the counting fact the program prints: for every
  first card, exactly 3 of the 51 indices give a card of the same rank.
- `Trial` (`trial.dfy`): `simulate_round`, as a method on a `SeedCell` proved
  against the pure functions `FirstCard`, `SecondIndex`, `RoundSeed` and
  `RoundHit`. `Hits(seed, n)` counts the successes along `n` consecutive
  trials.
- `Sums` (`sums.dfy`): sums of counts. It proves that adding the same counts in
  any order gives the same total. This is why the mutex-guarded additions can
  be modelled as one sequential sum.
- `WorkSplit` (`worksplit.dfy`): the share formula `T/W + (i < T%W ? 1 : 0)`,
  and the loop that fills `thread_data`.
- `Simulation` (`simulation.dfy`): argument validation, the trial loop of
  `thread_work`, the shared counter `successful_rounds`, and `main`'s
  dispatch-and-join. Threads run one after another.
- `CTypes` (`ctypes.dfy`): the C `int` and `unsigned int` ranges. Overflow is
  ruled out, not assumed away. A share never exceeds `total_rounds`. The
  counter never exceeds `total_rounds` either, so `successful_rounds +=
  local_success` never overflows.

Inputs that C takes from the environment become parameters of `Run`:

- `seeds[i]` is the seed thread `i` starts from. The source computes it as
  `time(NULL) + thread_id * 1000 + pthread_self()`.
- `created[i]` says whether `pthread_create` succeeds for thread `i`.
- `totalRounds` and `numThreads` are the values `atoi` returned.

The first card is `my_rand() % 52` and the index is `my_rand() % 51`. These
are kept exactly. Because 32768 is a multiple of neither 52 nor 51, the two
draws are not exactly uniform. The 3-of-51 result is therefore a statement
about the 51 indices, not about the generator's distribution.

Notes on how the model relates to the code:

- The seeds are free parameters of `Run`. The model does not derive them from
  the time, the thread number and `pthread_self()` (main.c:52). No property
  here relies on workers having distinct seeds, which main.c:52 does not
  guarantee either.
- When a thread cannot be created, `main` returns 1 at once. The threads
  already started are not joined, and the counter is never read. `Run` returns
  `Err(ThreadCreateFailed)` and discards whatever the earlier threads added.
- The full-shuffle trial strategy (Fisher–Yates over a 52-card array) does not
  appear in `main.c`, so it is not modelled.

## Model

| member | source | states |
|---|---|---|
| `Lcg.Next` | main.c:17 | the new seed is the one 32-bit value congruent to `seed * 1103515245 + 12345` modulo 2^32, and its lowest bit is the opposite of the old seed's |
| `Lcg.Output` | main.c:18 | the value `my_rand` returns is always in [0, 32768) |
| `Lcg.SeedCell.constructor` | main.c:52 | a thread's seed variable starts at the seed it is given |
| `Lcg.SeedCell.MyRand` | main.c:16-19 | the seed becomes `(seed * 1103515245 + 12345) mod 2^32`; the result is bits 16..30 of the new seed, in [0, 32768) |
| `Lcg.PrevNext` | main.c:17 | the generator step can be undone: `Prev(Next(s)) == s` for every 32-bit seed |
| `Lcg.NextPrev` | main.c:17 | every 32-bit seed is the successor of some seed: `Next(Prev(s)) == s` |
| `Lcg.NextInjective` | main.c:17 | two seeds have the same successor only if they are equal |
| `Deck.Rank` | main.c:38-39 | a card's rank (`card % 13`) is one of the 13 ranks |
| `Deck.IsMatch` | main.c:38-41 | two cards have equal `card % 13` exactly when they lie a whole number of suits (a multiple of 13) apart |
| `Deck.SecondCard` | main.c:31-35 | the skip map sends every index in [0, 51) to a card in [0, 52) that differs from the first card |
| `Deck.IndexOfCard` | main.c:31-35 | every card other than the first is the image of some index in [0, 51) |
| `Deck.SecondCardInjective` | main.c:31-35 | distinct indices give distinct second cards, and equal ones equal cards |
| `Deck.IndexOfSecondCard` | main.c:31-35 | IndexOfCard inverts the skip map on every index |
| `Deck.SecondCardImage` | main.c:29-35 | the set of second cards over all 51 indices is exactly the deck minus the first card |
| `Deck.CountRankSuit` | main.c:38-39 | each block of 13 cards starting at a multiple of 13 holds each rank exactly once |
| `Deck.CountRankSuits` | main.c:38-39 | the first k suits hold exactly k cards of each rank |
| `Deck.FourPerRank` | main.c:38-39 | each rank occurs on exactly 4 of the 52 cards |
| `Deck.CountMatches` | main.c:29-41 | among the first n indices at most n give a rank match |
| `Deck.MatchesBelowFirst` | main.c:31-41 | below the first card, the indices that match are exactly the cards of that rank |
| `Deck.MatchesAboveFirst` | main.c:31-41 | up to index n, the matches are the same-rank cards below the first card, plus those strictly between it and n + 1 |
| `Deck.ThreeOfFiftyOne` | main.c:29-41 | for every first card exactly 3 of the 51 second-card indices match its rank (the 3/51 printed at main.c:161-164) |
| `Trial.FirstCard` | main.c:26 | the first draw is a card in [0, 52) |
| `Trial.SecondIndex` | main.c:29 | the second draw is an index in [0, 51) |
| `Trial.RoundHit` | main.c:26-41 | the trial starting from a seed succeeds exactly when its second card lies a multiple of 13 away from its first card |
| `Trial.RoundDrawsDistinctCards` | main.c:26-41 | a trial draws two distinct cards of the deck and succeeds exactly when `first % 13 == second % 13` |
| `Trial.Hits` | main.c:54-58 | the successes among n trials number at most n (none for n <= 0) |
| `Trial.SimulateRound` | main.c:23-42 | `simulate_round` advances the seed by exactly two `my_rand` steps and returns the rank-match outcome of the cards those steps draw |
| `Sums.SumOrderIrrelevant` | main.c:61-63 | adding the same counts in any order gives the same total |
| `WorkSplit.QuotientFits` | main.c:96-97 | `total_rounds / num_threads` lies in [0, total], and adding the extra round keeps it within the total |
| `WorkSplit.Share` | main.c:116-122 | a thread's share is between 0 and the total number of rounds, so it fits an `int` |
| `WorkSplit.SharesBalanced` | main.c:115-122 | earlier threads never get fewer rounds than later ones, and never more than one more; each share is `T/W` or `T/W + 1`, and exactly the threads below `T % W` get the `+ 1` |
| `WorkSplit.SharesPrefixSum` | main.c:115-122 | the first n threads get `n * (T/W) + min(n, T % W)` rounds in all |
| `WorkSplit.SharesSum` | main.c:96-122 | the shares of all threads add up to exactly `total_rounds` |
| `WorkSplit.AssignWork` | main.c:115-122 | the filled `thread_data` has one row per thread, holding that thread's share and number |
| `Simulation.Validate` | main.c:73-85 | the arguments pass iff `argc == 3` and both counts are positive; a wrong `argc` is reported as such, a non-positive count otherwise |
| `Simulation.SuccessesBounded` | main.c:61-63 | the sum of the threads' local counts lies in [0, total_rounds] |
| `Simulation.ArrivalOrderIrrelevant` | main.c:61-63 | whatever order the threads add in, the counter ends at the sum of the local counts, which lies in [0, total_rounds] |
| `Simulation.SuccessCounter.constructor` | main.c:11 | the shared counter starts at 0 |
| `Simulation.SuccessCounter.Add` | main.c:61-63 | the counter grows by exactly the added local count, as long as the sum fits an `int` |
| `Simulation.PlayRounds` | main.c:49-58 | the loop plays exactly `rounds` trials; `local_success` ends as the number of successful trials along the seed sequence, in [0, rounds] |
| `Simulation.ThreadWork` | main.c:45-63 | a thread adds exactly its number of successes to the shared counter |
| `Simulation.Run` | main.c:70-139 | rejected arguments give their error and start no thread; a failed thread creation gives `ThreadCreateFailed`; no other error occurs, so a valid run with every thread created always succeeds, and its result is the sum of the threads' success counts, in [0, total_rounds] |

## Left out

- Threads, the mutex and the join (main.c:12, main.c:61-63, main.c:124-139). The threads run one after another. `Sums.SumOrderIrrelevant` shows that the order of the additions does not change the total.
- Seed derivation from `time(NULL)` and `pthread_self()` (main.c:52), and `srand(time(NULL))` (main.c:93). The seeds are the parameter `seeds` of `Run`.
- `atoi` (main.c:79-80). `Run` receives the counts already parsed, as `int` values.
- The timing with `gettimeofday` and every floating-point quantity: probability, percentage, difference and throughput (main.c:111-157).
- Output through `printf` and `perror`, `getpid`, and `pthread_mutex_destroy` (main.c:65, main.c:74-75, main.c:83, main.c:87-104, main.c:131, main.c:151-174).
- Statistical convergence of the success rate to 3/51. It is a probabilistic claim. The exact count `Deck.ThreeOfFiftyOne` stands in for it.
- `Simulation.Run`: in `main.c` one loop both fills `thread_data[i]` and starts thread `i`. The model fills every row first (`WorkSplit.AssignWork`), then starts the threads. No thread reads another thread's row, so the order of these steps makes no difference.
- `WorkSplit.AssignWork`: `thread_data` is `int[num_threads][2]` in C. It is modelled as an array of `WorkerTask` records holding the same two numbers.
