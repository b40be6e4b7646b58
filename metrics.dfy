/**
 * The metrics kept across runs by the version-017 harness: two
 * insertion-ordered maps from a strategy to the list of samples its runs
 * produced (average nanoseconds per order, and orders per second). Each
 * completed run appends one sample to its strategy's list; nothing is
 * ever removed or rewritten.
 */
module Metrics {
  import opened LinkedMaps

  /** The abstract state of one such map: keys in insertion order and each key's samples. */
  datatype Log<K> = Log(order: seq<K>, samples: map<K, seq<int>>)

  ghost predicate WellFormed<K>(log: Log<K>) {
    KeysInOrder(log.order, log.samples)
  }

  /** The samples recorded for `c` so far; none when `c` was never recorded. */
  function SamplesOf<K>(log: Log<K>, c: K): seq<int> {
    if c in log.samples then log.samples[c] else []
  }

  /**
   * One update (`updateAvgNanoTime` / `updateAvgSubmitTimes`): create an
   * empty list for `c` when it is absent, then append `v` to it.
   */
  function Record<K(==, !new)>(log: Log<K>, c: K, v: int): (r: Log<K>)
    ensures SamplesOf(r, c) == SamplesOf(log, c) + [v]
    ensures forall k :: k != c ==> SamplesOf(r, k) == SamplesOf(log, k)
    ensures r.samples.Keys == log.samples.Keys + {c}
    ensures log.order <= r.order
    ensures c in log.samples ==> r.order == log.order
    ensures c !in log.samples ==> r.order == log.order + [c]
    ensures WellFormed(log) ==> WellFormed(r)
  {
    var created := if c in log.samples then log else Log(log.order + [c], log.samples[c := []]);
    Log(created.order, created.samples[c := created.samples[c] + [v]])
  }

  /** The state after recording the runs `runs`, in order, starting from empty maps. */
  function Replay<K(==, !new)>(runs: seq<(K, int)>): Log<K>
  {
    if runs == [] then Log([], map[])
    else Record(Replay(runs[..|runs| - 1]), runs[|runs| - 1].0, runs[|runs| - 1].1)
  }

  /** The values of the runs keyed `c`, in the order the runs happened. */
  function RunsOf<K(==)>(runs: seq<(K, int)>, c: K): seq<int>
  {
    if runs == [] then []
    else RunsOf(runs[..|runs| - 1], c) + (if runs[|runs| - 1].0 == c then [runs[|runs| - 1].1] else [])
  }

  /** Nothing is lost or reordered: each key's list holds exactly its runs' values, in run order. */
  lemma {:induction false} ReplayKeepsEveryRun<K(!new)>(runs: seq<(K, int)>, c: K)
    ensures SamplesOf(Replay(runs), c) == RunsOf(runs, c)
  {
    if runs != [] {
      ReplayKeepsEveryRun(runs[..|runs| - 1], c);
    }
  }

  /** Exactly the keys that some run used are present, each once in the order. */
  lemma {:induction false} ReplayKeys<K(!new)>(runs: seq<(K, int)>)
    ensures WellFormed(Replay(runs))
    ensures forall k :: k in Replay(runs).samples <==> exists i :: 0 <= i < |runs| && runs[i].0 == k
  {
    if runs != [] {
      var init := runs[..|runs| - 1];
      ReplayKeys(init);
      forall k | k in Replay(runs).samples
        ensures exists i :: 0 <= i < |runs| && runs[i].0 == k
      {
        if k in Replay(init).samples {
          var i :| 0 <= i < |init| && init[i].0 == k;
          assert runs[i].0 == k;
        } else {
          assert runs[|runs| - 1].0 == k;
        }
      }
      forall k | exists i :: 0 <= i < |runs| && runs[i].0 == k
        ensures k in Replay(runs).samples
      {
        var i :| 0 <= i < |runs| && runs[i].0 == k;
        if i < |runs| - 1 {
          assert init[i].0 == k;
        }
      }
    }
  }

  /** Later runs only ever add keys at the end: the key order of any earlier point is a prefix of the later one. */
  lemma {:induction false} ReplayOrderOnlyGrows<K(!new)>(runs: seq<(K, int)>, n: nat)
    requires n <= |runs|
    ensures Replay(runs[..n]).order <= Replay(runs).order
  {
    if n < |runs| {
      var init := runs[..|runs| - 1];
      assert runs[..n] == init[..n];
      ReplayOrderOnlyGrows(init, n);
    } else {
      assert runs[..n] == runs;
    }
  }

  /**
   * The two static maps `avgNanoTimeMap` and `avgSubmitTimesMap` of the
   * version-017 harness, held by one aggregator object that callers pass
   * to each run.
   */
  class Aggregator<K(==, !new)> {
    const avgNanoTimeMap: LinkedMap<K, seq<int>>
    const avgSubmitTimesMap: LinkedMap<K, seq<int>>

    ghost predicate Valid()
      reads this, avgNanoTimeMap, avgSubmitTimesMap
    {
      && avgNanoTimeMap != avgSubmitTimesMap
      && avgNanoTimeMap.Valid()
      && avgSubmitTimesMap.Valid()
    }

    ghost function NanoLog(): Log<K>
      reads this, avgNanoTimeMap
    {
      Log(avgNanoTimeMap.order, avgNanoTimeMap.entries)
    }

    ghost function SubmitLog(): Log<K>
      reads this, avgSubmitTimesMap
    {
      Log(avgSubmitTimesMap.order, avgSubmitTimesMap.entries)
    }

    constructor ()
      ensures Valid()
      ensures fresh(avgNanoTimeMap) && fresh(avgSubmitTimesMap)
      ensures NanoLog() == Log([], map[]) && SubmitLog() == Log([], map[])
    {
      avgNanoTimeMap := new LinkedMap<K, seq<int>>();
      avgSubmitTimesMap := new LinkedMap<K, seq<int>>();
    }

    /** `updateAvgNanoTime(versionClazz, avgTimeNanos)` */
    method UpdateAvgNanoTime(c: K, avgTimeNanos: int)
      requires Valid()
      modifies avgNanoTimeMap
      ensures Valid()
      ensures NanoLog() == Record(old(NanoLog()), c, avgTimeNanos)
      ensures SubmitLog() == old(SubmitLog())
    {
      if c !in avgNanoTimeMap.entries {
        avgNanoTimeMap.Put(c, []);
      }
      var list := avgNanoTimeMap.entries[c];
      avgNanoTimeMap.Put(c, list + [avgTimeNanos]);
    }

    /** `updateAvgSubmitTimes(versionClazz, avgSubmitTimes)` */
    method UpdateAvgSubmitTimes(c: K, avgSubmitTimes: int)
      requires Valid()
      modifies avgSubmitTimesMap
      ensures Valid()
      ensures SubmitLog() == Record(old(SubmitLog()), c, avgSubmitTimes)
      ensures NanoLog() == old(NanoLog())
    {
      if c !in avgSubmitTimesMap.entries {
        avgSubmitTimesMap.Put(c, []);
      }
      var list := avgSubmitTimesMap.entries[c];
      avgSubmitTimesMap.Put(c, list + [avgSubmitTimes]);
    }
  }
}
