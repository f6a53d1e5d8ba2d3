/**
 * The static division of the trials among the threads (main.c, `main`):
 * every thread gets `total_rounds / num_threads` rounds, and the first
 * `total_rounds % num_threads` threads one more.
 */
module WorkSplit {
  import opened CTypes
  import opened Sums

  /** The row `thread_data[i]`: the rounds a thread is to play, and its number. */
  datatype WorkerTask = WorkerTask(rounds: int32, threadId: int32)

  /** The rounds thread i is assigned; a share never exceeds the total, so it fits an `int`. */
  function Share(total: int, workers: int, i: int): (r: int)
    requires 0 < total && 0 < workers && 0 <= i < workers
    ensures 0 <= r <= total
  {
    QuotientFits(total, workers);
    total / workers + (if i < total % workers then 1 else 0)
  }

  lemma QuotientFits(total: int, workers: int)
    requires 0 < total && 0 < workers
    ensures 0 <= total / workers <= total
    ensures total % workers > 0 ==> total / workers + 1 <= total
  {
    var q, rem := total / workers, total % workers;
    assert total == workers * q + rem;
    assert 0 <= rem < workers;
    if q < 0 {
      ProductSign(workers, -q);
      assert false;
    }
    ProductSign(workers - 1, q);
    assert workers * q == q + (workers - 1) * q;
  }

  lemma ProductSign(a: int, b: int)
    requires 0 <= a && 0 <= b
    ensures a * b >= 0 && (b >= 1 ==> a * b >= a)
  {
    if b >= 1 {
      assert a * b == a + a * (b - 1);
    }
  }

  /** The shares of all threads, in thread order. */
  function Shares(total: int, workers: int): seq<int>
    requires 0 < total && 0 < workers
  {
    seq(workers, i requires 0 <= i < workers => Share(total, workers, i))
  }

  /**
   * The split is as even as possible: a thread never gets fewer rounds than
   * a later one, nor more than one round more; exactly the threads numbered
   * below `total % workers` get the extra round.
   */
  lemma SharesBalanced(total: int, workers: int, i: int, j: int)
    requires 0 < total && 0 < workers && 0 <= i <= j < workers
    ensures Share(total, workers, j) <= Share(total, workers, i) <= Share(total, workers, j) + 1
    ensures Share(total, workers, i) == total / workers + 1 <==> i < total % workers
    ensures Share(total, workers, i) != total / workers + 1 ==> Share(total, workers, i) == total / workers
  {
  }

  /** The first n threads together get n base shares plus one extra round per thread below the remainder. */
  lemma {:induction false} SharesPrefixSum(total: int, workers: int, n: int)
    requires 0 < total && 0 < workers && 0 <= n <= workers
    ensures Sum(Shares(total, workers)[..n])
         == n * (total / workers) + (if n < total % workers then n else total % workers)
  {
    if n > 0 {
      var s := Shares(total, workers);
      SharesPrefixSum(total, workers, n - 1);
      assert s[..n][..n - 1] == s[..n - 1];
    }
  }

  /** The shares add up to exactly the total: no round is lost or played twice. */
  lemma SharesSum(total: int, workers: int)
    requires 0 < total && 0 < workers
    ensures Sum(Shares(total, workers)) == total
  {
    var s := Shares(total, workers);
    SharesPrefixSum(total, workers, workers);
    assert s[..workers] == s;
  }

  /** The loop of `main` that fills `thread_data` before each thread is started. */
  method AssignWork(totalRounds: int32, numThreads: int32) returns (threadData: array<WorkerTask>)
    requires 0 < totalRounds && 0 < numThreads
    ensures fresh(threadData) && threadData.Length == numThreads
    ensures forall i :: 0 <= i < numThreads ==>
      threadData[i] == WorkerTask(Share(totalRounds, numThreads, i), i)
  {
    var roundsPerThread := totalRounds / numThreads;
    var extraRounds := totalRounds % numThreads;
    threadData := new WorkerTask[numThreads];
    for i := 0 to numThreads
      invariant forall k :: 0 <= k < i ==>
        threadData[k] == WorkerTask(Share(totalRounds, numThreads, k), k)
    {
      threadData[i] := WorkerTask(roundsPerThread, i);
      if i < extraRounds {
        threadData[i] := threadData[i].(rounds := threadData[i].rounds + 1);
      }
    }
  }
}
