/**
 * The run of main.c with its threads taken one after another: argument
 * validation, the per-thread trial loop of `thread_work`, the shared counter
 * `successful_rounds` and the join after which `main` reads it.
 */
module Simulation {
  import opened CTypes
  import opened Lcg
  import opened Trial
  import opened Sums
  import opened WorkSplit

  /**
   * The ways `main` gives up (all exit with status 1): the two checks on its
   * command line, and a thread that could not be created.
   */
  datatype RunError = WrongArgumentCount | NonPositiveCount | ThreadCreateFailed

  datatype Result<T> = Ok(value: T) | Err(error: RunError)

  /** A validated configuration. */
  datatype Config = Config(totalRounds: int32, numThreads: int32)

  /**
   * The checks of `main` on `argc` and on the two counts as `atoi` parsed
   * them (the counts are not looked at when `argc` is wrong).
   */
  function Validate(argc: int, totalRounds: int32, numThreads: int32): (r: Result<Config>)
    ensures r.Ok? <==> argc == 3 && totalRounds > 0 && numThreads > 0
    ensures r.Ok? ==> r.value == Config(totalRounds, numThreads)
    ensures r.Err? ==> (r.error == WrongArgumentCount <==> argc != 3)
    ensures r.Err? ==> r.error != ThreadCreateFailed
  {
    if argc != 3 then Err(WrongArgumentCount)
    else if totalRounds <= 0 || numThreads <= 0 then Err(NonPositiveCount)
    else Ok(Config(totalRounds, numThreads))
  }

  /** The local success counts of the threads, in thread order. */
  function LocalCounts(total: int, workers: int, seeds: seq<uint32>): (counts: seq<int>)
    requires 0 < total && 0 < workers && workers <= |seeds|
    ensures |counts| == workers
  {
    seq(workers, i requires 0 <= i < workers => Hits(seeds[i], Share(total, workers, i)))
  }

  /** The threads' successes together never exceed the rounds they were given. */
  lemma SuccessesBounded(total: int, workers: int, seeds: seq<uint32>)
    requires 0 < total && 0 < workers && workers <= |seeds|
    ensures 0 <= Sum(LocalCounts(total, workers, seeds)) <= total
  {
    SumBounded(LocalCounts(total, workers, seeds), Shares(total, workers));
    SharesSum(total, workers);
  }

  /**
   * Whatever order the threads take the mutex in, the final value of
   * `successful_rounds` is the sum of their local counts.
   */
  lemma ArrivalOrderIrrelevant(total: int, workers: int, seeds: seq<uint32>, arrivals: seq<int>)
    requires 0 < total && 0 < workers && workers <= |seeds|
    requires multiset(arrivals) == multiset(LocalCounts(total, workers, seeds))
    ensures Sum(arrivals) == Sum(LocalCounts(total, workers, seeds))
    ensures 0 <= Sum(arrivals) <= total
  {
    SumOrderIrrelevant(arrivals, LocalCounts(total, workers, seeds));
    SuccessesBounded(total, workers, seeds);
  }

  /** The global `successful_rounds`, guarded by the mutex. */
  class SuccessCounter {
    var successfulRounds: int32

    constructor ()
      ensures successfulRounds == 0
    {
      successfulRounds := 0;
    }

    /** `successful_rounds += local_success` (the addition must not overflow an `int`). */
    method Add(localSuccess: int32)
      requires INT32_MIN <= successfulRounds + localSuccess <= INT32_MAX
      modifies this
      ensures successfulRounds == old(successfulRounds) + localSuccess
    {
      successfulRounds := successfulRounds + localSuccess;
    }
  }

  /**
   * The trial loop of `thread_work`: play `rounds` trials from the thread's
   * own seed and count the successes.
   */
  method PlayRounds(rounds: int32, seed: uint32) returns (localSuccess: int32)
    ensures localSuccess == Hits(seed, rounds)
    ensures 0 <= localSuccess && (rounds >= 0 ==> localSuccess <= rounds)
  {
    var cell := new SeedCell(seed);
    localSuccess := 0;
    var i: int32 := 0;
    while i < rounds
      invariant 0 <= i && (i <= rounds || i == 0)
      invariant cell.seed == SeedAfter(seed, i)
      invariant localSuccess == Hits(seed, i)
    {
      var hit := SimulateRound(cell);
      if hit {
        localSuccess := localSuccess + 1;
      }
      i := i + 1;
    }
  }

  /** `thread_work`: play the thread's rounds, then add its count to the shared counter. */
  method ThreadWork(task: WorkerTask, seed: uint32, counter: SuccessCounter)
    requires counter.successfulRounds + Hits(seed, task.rounds) <= INT32_MAX
    modifies counter
    ensures counter.successfulRounds == old(counter.successfulRounds) + Hits(seed, task.rounds)
  {
    var localSuccess := PlayRounds(task.rounds, seed);
    counter.Add(localSuccess);
  }

  /**
   * `main`: validate the arguments, split the rounds, start every thread (one
   * after another here) with its seed from `seeds`, and read the total after
   * the join. `created[i]` is whether `pthread_create` succeeds for thread i;
   * the first failure abandons the run.
   */
  method Run(argc: int, totalRounds: int32, numThreads: int32, seeds: seq<uint32>, created: seq<bool>)
    returns (r: Result<int32>)
    requires numThreads <= |seeds| && numThreads <= |created|
    ensures Validate(argc, totalRounds, numThreads).Err? ==>
      r == Err(Validate(argc, totalRounds, numThreads).error)
    ensures r.Err? ==> Validate(argc, totalRounds, numThreads).Err? || r.error == ThreadCreateFailed
    ensures r == Err(ThreadCreateFailed) <==>
      Validate(argc, totalRounds, numThreads).Ok? && exists i :: 0 <= i < numThreads && !created[i]
    ensures r.Ok? ==> 0 < totalRounds && 0 < numThreads
    ensures r.Ok? ==> r.value == Sum(LocalCounts(totalRounds, numThreads, seeds))
    ensures r.Ok? ==> 0 <= r.value <= totalRounds
  {
    var config := Validate(argc, totalRounds, numThreads);
    if config.Err? {
      return Err(config.error);
    }
    var threadData := AssignWork(totalRounds, numThreads);
    var counter := new SuccessCounter();
    ghost var locals := LocalCounts(totalRounds, numThreads, seeds);
    SuccessesBounded(totalRounds, numThreads, seeds);
    for i := 0 to numThreads
      modifies counter
      invariant counter.successfulRounds == Sum(locals[..i])
      invariant forall k :: 0 <= k < i ==> created[k]
    {
      if !created[i] {
        return Err(ThreadCreateFailed);
      }
      assert locals[..i + 1][..i] == locals[..i];
      SumPrefixAtMost(locals, i + 1);
      ThreadWork(threadData[i], seeds[i], counter);
    }
    assert locals[..numThreads] == locals;
    r := Ok(counter.successfulRounds);
  }
}
