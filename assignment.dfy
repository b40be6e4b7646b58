/**
 * The work assignment of one harness run (`getThreadSubmitTimesMap`, the
 * same code in both harness versions): `submitCnt` submission attempts
 * are dealt round-robin to `threadCount` workers, attempt `i` going to
 * worker `i % threadCount`. Also the sequential account of what the
 * workers then do with it: each attempt counts the end gate down once.
 */
module Assignment {
  import opened LinkedMaps

  /**
   * Closed form of worker `k`'s share: the quotient, plus one while the
   * remainder lasts.
   */
  function Share(threadCount: nat, submitCnt: nat, k: nat): nat
    requires threadCount > 0
  {
    submitCnt / threadCount + (if k < submitCnt % threadCount then 1 else 0)
  }

  /**
   * Round-robin reference: how many of the attempts `0 .. n - 1` land on
   * worker `k` when attempt `i` goes to worker `i % threadCount`.
   */
  function Hits(threadCount: nat, n: nat, k: nat): nat
    requires threadCount > 0
  {
    if n == 0 then 0
    else Hits(threadCount, n - 1, k) + (if (n - 1) % threadCount == k then 1 else 0)
  }

  /** Sum of `times[0] + ... + times[n - 1]`. */
  function SumTimes(times: map<int, int>, n: nat): int
    requires forall k :: 0 <= k < n ==> k in times
  {
    if n == 0 then 0 else SumTimes(times, n - 1) + times[n - 1]
  }

  lemma DivModUnique(n: nat, t: nat, q: nat, r: nat)
    requires t > 0 && r < t && n == q * t + r
    ensures n / t == q && n % t == r
  {
    var q', r' := n / t, n % t;
    assert q' * t + r' == n;
    if q' < q {
      MulGrows(q', q - q', t);
      assert false;
    } else if q' > q {
      MulGrows(q, q' - q, t);
      assert false;
    }
  }

  lemma MulGrows(a: nat, d: nat, t: nat)
    requires d >= 1 && t > 0
    ensures (a + d) * t >= a * t + t
  {
  }

  /** Dealing attempt `i` adds one to worker `i % threadCount` and to no one else. */
  lemma {:induction false} ShareStep(threadCount: nat, i: nat, k: nat)
    requires threadCount > 0 && k < threadCount
    ensures Share(threadCount, i + 1, k) == Share(threadCount, i, k) + (if i % threadCount == k then 1 else 0)
  {
    var q, r := i / threadCount, i % threadCount;
    assert i == q * threadCount + r;
    if r + 1 < threadCount {
      DivModUnique(i + 1, threadCount, q, r + 1);
    } else {
      assert i + 1 == (q + 1) * threadCount + 0;
      DivModUnique(i + 1, threadCount, q + 1, 0);
    }
  }

  /** The closed form counts exactly the round-robin deal. */
  lemma {:induction false} HitsIsShare(threadCount: nat, n: nat, k: nat)
    requires threadCount > 0 && k < threadCount
    ensures Hits(threadCount, n, k) == Share(threadCount, n, k)
  {
    if n == 0 {
      assert 0 / threadCount == 0 && 0 % threadCount == 0;
    } else {
      HitsIsShare(threadCount, n - 1, k);
      ShareStep(threadCount, n - 1, k);
    }
  }

  /**
   * The shares of workers `0 .. n - 1` add up to `n` times the quotient,
   * plus one for each of them below the remainder.
   */
  lemma {:induction false} SharePrefixSum(times: map<int, int>, threadCount: nat, submitCnt: nat, n: nat)
    requires threadCount > 0 && n <= threadCount
    requires forall k :: 0 <= k < n ==> k in times && times[k] == Share(threadCount, submitCnt, k)
    ensures SumTimes(times, n) ==
              n * (submitCnt / threadCount)
              + (if n < submitCnt % threadCount then n else submitCnt % threadCount)
  {
    if n > 0 {
      SharePrefixSum(times, threadCount, submitCnt, n - 1);
      assert n * (submitCnt / threadCount) == (n - 1) * (submitCnt / threadCount) + submitCnt / threadCount;
    }
  }

  /**
   * An assignment that gives every worker its share hands out exactly
   * `submitCnt` attempts: the end gate's initial count.
   */
  lemma SharesSumToSubmitCnt(times: map<int, int>, threadCount: nat, submitCnt: nat)
    requires threadCount > 0
    requires forall k :: 0 <= k < threadCount ==> k in times && times[k] == Share(threadCount, submitCnt, k)
    ensures SumTimes(times, threadCount) == submitCnt
  {
    SharePrefixSum(times, threadCount, submitCnt, threadCount);
    assert threadCount * (submitCnt / threadCount) + submitCnt % threadCount == submitCnt;
  }

  /**
   * The deal is as even as it can be: every share is the quotient or one
   * more, the extra ones go to the lowest indices, shares never grow with
   * the index, and nobody is left idle when there are at least as many
   * attempts as workers.
   */
  lemma ShareIsBalanced(threadCount: nat, submitCnt: nat, j: nat, k: nat)
    requires threadCount > 0 && j < threadCount && k < threadCount
    ensures Share(threadCount, submitCnt, k) == submitCnt / threadCount + 1 <==> k < submitCnt % threadCount
    ensures Share(threadCount, submitCnt, k) == submitCnt / threadCount <==> k >= submitCnt % threadCount
    ensures j <= k ==> Share(threadCount, submitCnt, k) <= Share(threadCount, submitCnt, j)
    ensures Share(threadCount, submitCnt, j) - Share(threadCount, submitCnt, k) <= 1
    ensures threadCount <= submitCnt ==> Share(threadCount, submitCnt, k) >= 1
  {
  }

  /**
   * `getThreadSubmitTimesMap(threadCount, submitCnt)`: first every worker
   * index is put with a count of zero, in ascending order; then each
   * attempt `i` increments the count of worker `i % threadCount`. A
   * negative `submitCnt` deals nothing.
   */
  method GetThreadSubmitTimesMap(threadCount: int, submitCnt: int) returns (m: LinkedMap<int, int>)
    requires threadCount >= 1
    ensures fresh(m) && m.Valid()
    ensures m.order == Range(threadCount)
    ensures forall k :: k in m.entries <==> 0 <= k < threadCount
    ensures forall k :: 0 <= k < threadCount ==>
              m.entries[k] == Hits(threadCount, if submitCnt < 0 then 0 else submitCnt, k)
              && m.entries[k] == Share(threadCount, if submitCnt < 0 then 0 else submitCnt, k)
    ensures SumTimes(m.entries, threadCount) == if submitCnt < 0 then 0 else submitCnt
  {
    m := new LinkedMap<int, int>();
    var i := 0;
    while i < threadCount
      invariant 0 <= i <= threadCount
      invariant m.Valid()
      invariant m.order == Range(i)
      invariant forall k :: k in m.entries <==> 0 <= k < i
      invariant forall k :: k in m.entries ==> m.entries[k] == 0
    {
      m.Put(i, 0);
      i := i + 1;
    }
    ghost var keys := m.entries.Keys;
    i := 0;
    while i < submitCnt
      invariant 0 <= i && (submitCnt >= 0 ==> i <= submitCnt) && (submitCnt < 0 ==> i == 0)
      invariant m.Valid()
      invariant m.order == Range(threadCount)
      invariant m.entries.Keys == keys
      invariant forall k :: 0 <= k < threadCount ==> m.entries[k] == Hits(threadCount, i, k)
    {
      var key := i % threadCount;
      var val := m.entries[key];
      val := val + 1;
      m.Put(key, val);
      i := i + 1;
    }
    assert i == if submitCnt < 0 then 0 else submitCnt;
    forall k | 0 <= k < threadCount
      ensures m.entries[k] == Share(threadCount, i, k)
    {
      HitsIsShare(threadCount, i, k);
    }
    SharesSumToSubmitCnt(m.entries, threadCount, i);
  }

  /**
   * The worker loops of `testMultiThread`, taken one after the other:
   * worker `k` makes `times[k]` attempts and counts the end gate down
   * once after each, whether the attempt succeeded or threw an
   * `Exception`. A latch already at zero stays at zero. `done[k]` is the
   * number of attempts worker `k` made.
   */
  method CountDownAll(threadCount: nat, times: map<int, int>, latchCount: nat)
    returns (remaining: nat, attempts: nat, done: seq<int>)
    requires forall k :: 0 <= k < threadCount ==> k in times && times[k] >= 0
    ensures |done| == threadCount
    ensures forall k :: 0 <= k < threadCount ==> done[k] == times[k]
    ensures attempts == SumTimes(times, threadCount)
    ensures remaining == if attempts < latchCount then latchCount - attempts else 0
  {
    remaining, attempts, done := latchCount, 0, [];
    var threadIndex := 0;
    while threadIndex < threadCount
      invariant 0 <= threadIndex <= threadCount
      invariant |done| == threadIndex
      invariant forall k :: 0 <= k < threadIndex ==> done[k] == times[k]
      invariant attempts == SumTimes(times, threadIndex)
      invariant remaining == if attempts < latchCount then latchCount - attempts else 0
    {
      var n := times[threadIndex];
      var i := 0;
      while i < n
        invariant 0 <= i <= n
        invariant attempts == SumTimes(times, threadIndex) + i
        invariant remaining == if attempts < latchCount then latchCount - attempts else 0
      {
        // the attempt itself (submitOrder) is not part of this model
        if remaining > 0 {
          remaining := remaining - 1;
        }
        attempts := attempts + 1;
        i := i + 1;
      }
      done := done + [i];
      threadIndex := threadIndex + 1;
    }
  }
}
