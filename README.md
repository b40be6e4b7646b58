# shopOrderTest harness: a Dafny model

The repository benchmarks strategies for selling a limited stock of one
goods row under concurrent orders. Two versions of its JUnit harness
(`Version011TestCommon`, `Version017TestCommon`) drive a chosen strategy:
`testMultiThread(threadCount, versionClazz)` checks its parameters, deals a
fixed number of order submissions (321 in version 011, 320 in version 017)
round-robin over `threadCount` worker threads, waits for all of them on a
count-down latch, derives the average latency and the throughput from the
elapsed time, and asserts the final stock. Version 017 also keeps, across
runs, an insertion-ordered history of those two figures per strategy, and
chooses the goods and user identifiers by the strategy's identifier type.

This project models that sequential logic and proves what it promises:

- `Common`: the strategy class argument as a datatype (null and unknown
  classes included), the run's error outcomes, Java's truncating `long`
  division, the average latency and the throughput.
- `LinkedMaps`: `LinkedHashMap` as a class with an insertion order and a
  key-to-value map.
- `Assignment`: `getThreadSubmitTimesMap` (identical in both versions) as
  an imperative method over a `LinkedMap`, proved against a round-robin
  reference count and a closed form; the proofs that the counts sum to the
  number of submissions and are balanced; and the worker loops, taken one
  after another, counting the end gate down once per attempt.
- `Metrics`: `updateAvgNanoTime` / `updateAvgSubmitTimes` as methods of an
  aggregator object holding the two maps, proved against a pure update
  `Record`, with lemmas about any sequence of runs.
- `Version011`, `Version017`: the parameter checks, identifier selection,
  end-state rule, and the whole `testMultiThread` step sequence.

The model follows the code: the version-011 `Wrong` run is asserted to
leave a stock above zero, not above the stock a correct run would leave,
and version 017 submits 320 orders. `AssertionMatchesExpectedStockIff`
states exactly when the two formulations agree.

## Model

| member | source | states |
|---|---|---|
| `Common.JavaDiv` | test/com/erhu1999/shopordertest/version017/Version017TestCommon.java:144 | the quotient is truncated toward zero: its magnitude is the largest whose product with the divisor does not exceed the dividend's, and its sign is the product of the operands' signs |
| `Common.AverageNanos` | test/com/erhu1999/shopordertest/version017/Version017TestCommon.java:144 | the average latency is the elapsed time divided by the submission count, rounded toward zero; it is positive exactly when the elapsed time is at least the submission count, and zero exactly when it lies strictly between minus and plus that count |
| `Common.Throughput` | test/com/erhu1999/shopordertest/version017/Version017TestCommon.java:148 | dividing one second by the average fails (ArithmeticException) exactly when the average is zero; for a positive average the result is the number of whole averages that fit in one second; for a negative average it is minus the number of whole magnitudes of the average that fit in one second (truncation toward zero) |
| `LinkedMaps.LinkedMap.constructor` | test/com/erhu1999/shopordertest/version017/Version017TestCommon.java:186 | a new map is empty and has no keys in its order |
| `LinkedMaps.LinkedMap.Put` | test/com/erhu1999/shopordertest/version017/Version017TestCommon.java:186-193 | `put` sets the key's value; a new key is appended to the insertion order, an existing key keeps its place; every key appears once in the order |
| `Assignment.GetThreadSubmitTimesMap` | test/com/erhu1999/shopordertest/version017/Version017TestCommon.java:185-196 | the keys are exactly `0 .. threadCount-1`, inserted in ascending order; worker `k`'s count is the number of attempts `i` with `i % threadCount == k`, equal to `submitCnt / threadCount` plus one when `k < submitCnt % threadCount`; the counts sum to `submitCnt` |
| `Assignment.ShareStep` | test/com/erhu1999/shopordertest/version017/Version017TestCommon.java:190-194 | dealing attempt `i` adds one to worker `i % threadCount`'s closed-form share and leaves every other worker's share unchanged |
| `Assignment.HitsIsShare` | test/com/erhu1999/shopordertest/version011/Version011TestCommon.java:169-173 | the round-robin count of attempts landing on worker `k` equals the closed form quotient-plus-remainder share |
| `Assignment.DivModUnique` | test/com/erhu1999/shopordertest/version011/Version011TestCommon.java:170 | the key `i % threadCount` and the quotient are the unique pair writing `i` as quotient times `threadCount` plus a remainder below `threadCount` |
| `Assignment.SharePrefixSum` | test/com/erhu1999/shopordertest/version011/Version011TestCommon.java:164-175 | the counts of workers `0 .. n-1` sum to `n` times the quotient plus one for each of them below the remainder |
| `Assignment.SharesSumToSubmitCnt` | test/com/erhu1999/shopordertest/version017/Version017TestCommon.java:105-109 | the counts of all workers sum to `submitCnt`, which is the end gate's initial count |
| `Assignment.ShareIsBalanced` | test/com/erhu1999/shopordertest/version017/Version017TestCommon.java:190-194 | each count is the quotient or one more, the extra one going exactly to the indices below the remainder; counts never increase with the index and differ by at most one; every count is at least one when `threadCount <= submitCnt` |
| `Assignment.CountDownAll` | test/com/erhu1999/shopordertest/version017/Version017TestCommon.java:113-140 | worker `k` makes exactly `times[k]` attempts (returned per worker) and counts the end gate down once per attempt, whether it returns or throws an `Exception`; the attempts total the sum of the assignment and the latch is left at its initial count less the attempts, floored at zero |
| `Metrics.Record` | test/com/erhu1999/shopordertest/version017/Version017TestCommon.java:199-205 | recording `v` for a strategy appends exactly `v` to that strategy's list (an absent strategy starts from an empty list), leaves every other list unchanged, adds only that key, keeps the existing insertion order as a prefix, and keeps every key listed once |
| `Metrics.ReplayKeepsEveryRun` | test/com/erhu1999/shopordertest/version017/Version017TestCommon.java:199-214 | after any sequence of runs, each strategy's list holds exactly the values of that strategy's runs, in run order |
| `Metrics.ReplayKeys` | test/com/erhu1999/shopordertest/version017/Version017TestCommon.java:200-202 | after any sequence of runs, a strategy has a list exactly when one of the runs used it, and each key appears once in the order |
| `Metrics.ReplayOrderOnlyGrows` | test/com/erhu1999/shopordertest/version017/Version017TestCommon.java:28-30 | the key order at any earlier point of a sequence of runs is a prefix of the later key order |
| `Metrics.Aggregator.constructor` | test/com/erhu1999/shopordertest/version017/Version017TestCommon.java:28-30 | both metric maps start empty and distinct |
| `Metrics.Aggregator.UpdateAvgNanoTime` | test/com/erhu1999/shopordertest/version017/Version017TestCommon.java:199-205 | the latency map becomes `Record` of its old state with the strategy and the value; the throughput map is unchanged |
| `Metrics.Aggregator.UpdateAvgSubmitTimes` | test/com/erhu1999/shopordertest/version017/Version017TestCommon.java:208-214 | the throughput map becomes `Record` of its old state with the strategy and the value; the latency map is unchanged |
| `Version011.CheckParams` | test/com/erhu1999/shopordertest/version011/Version011TestCommon.java:96-102 | a thread count outside `1 .. 321` is rejected first; otherwise a null or any class other than `Version011Bad`, `Version011Good`, `Version011Wrong` is rejected; otherwise the strategy whose class was given is selected |
| `Version011.AssertionMatchesExpectedStockIff` | test/com/erhu1999/shopordertest/version011/Version011TestCommon.java:155-160 | the final rule (Bad and Good end at zero, Wrong above zero) coincides for every final stock with "correct strategies end at the initial stock less the orders, floored at zero; Wrong ends above that" if and only if the initial stock is at most 321 |
| `Version011.StockAssertionHolds` | test/com/erhu1999/shopordertest/version011/Version011TestCommon.java:156-160 | `Bad` and `Good` pass exactly when the final stock is zero and `Wrong` exactly when it is positive, so no passing run has a negative stock; for any initial stock of at most 321 this is "correct strategies end at the stock a correct run leaves, `Wrong` above it" |
| `Version011.TestMultiThread` | test/com/erhu1999/shopordertest/version011/Version011TestCommon.java:80-161 | invalid parameters fail before any attempt; otherwise exactly 321 attempts are made and the end gate is left at zero, so `endGate.await()` returns; a zero average fails with a division by zero; otherwise the run passes exactly when the strategy's final-stock rule holds, reporting the average and the throughput |
| `Version017.CheckParams` | test/com/erhu1999/shopordertest/version017/Version017TestCommon.java:96-103 | a thread count outside `1 .. 320` is rejected first; otherwise a null or any class other than `Version017LongId`, `Version017IntegerId`, `Version017StringId` is rejected; otherwise the strategy whose class was given is selected |
| `Version017.GoodsId` | test/com/erhu1999/shopordertest/version017/Version017TestCommon.java:168-174 | the integer and long strategies get exactly the string `"1"`, a decimal string of value 1 (so the later `parseLong` / `parseInt` succeed); every other class gets the single-quoted UUID literal of 8-4-4-4-12 hex digits |
| `Version017.UserId` | test/com/erhu1999/shopordertest/version017/Version017TestCommon.java:176-182 | the same selection as the goods id |
| `Version017.AssertionMatchesExpectedStockIff` | test/com/erhu1999/shopordertest/version017/Version017TestCommon.java:164-165 | "final stock is zero" coincides for every final stock with "final stock is the initial stock less the orders, floored at zero" if and only if the initial stock is at most 320 |
| `Version017.StockAssertionHolds` | test/com/erhu1999/shopordertest/version017/Version017TestCommon.java:165 | a run passes exactly when the final stock is zero; for any initial stock of at most 320 this is "the run ends at the stock a correct run leaves" |
| `Version017.TestMultiThread` | test/com/erhu1999/shopordertest/version017/Version017TestCommon.java:76-166 | invalid parameters fail before any attempt and record nothing; otherwise exactly 320 attempts are made and the end gate is left at zero, the latency is appended to the strategy's list, a zero average then fails with a division by zero leaving the throughput list unchanged, otherwise the throughput is appended and the run passes exactly when the final stock is zero |

## Left out

- Threads, the start and end `CountDownLatch`es and their interleaving: the worker loops are taken one after another, which gives the same attempt count and the same final latch count in any interleaving.
- `System.nanoTime()`: the elapsed time is a parameter; the `long` overflow of `endTimeNanos - startTimeNanos` is not modelled.
- The database: `initDb`, `initDataSourceByHikari`, `closeAllConnection`, `queryOneRow`, `execSqlFile`, the HikariCP settings and the SQL built from the goods id. The stock read after the run is a parameter; the stock and sales read before it only feed the printout and are not modelled.
- The strategies' `submitOrder` (Version011Bad/Good/Wrong, Version017LongId/IntegerId/StringId): their source is not part of this model, so each attempt's effect on the stock is not modelled, and every attempt counts the same whether or not it throws an `Exception` (the message is only printed).
- `System.out.println` reporting, including the second `NANO_OF_ONE_SECOND / avgTimeNanos` of version 017, which repeats the throughput already computed.
- `NANO_OF_ONE_SECOND` is defined in a `Constant` class that is not part of this model; it is taken to be 1,000,000,000.
- Metric lists are values, so the `ArrayList` aliasing of the source (fetching the list and appending to it in place) is stated as replacing the key's list with the extended one.
- `getThreadSubmitTimesMap` is modelled for `threadCount >= 1` only, which is how both harnesses call it, after their parameter check. With `threadCount < 1` the source fails (a division by zero, or a null unboxed from a missing key) only when `submitCnt > 0`; with `submitCnt <= 0` it returns an empty map.
- A Java `Error` (not an `Exception`) thrown by `submitOrder` is not modelled. In version 011 it skips that attempt's `countDown` and ends the worker; in version 017 the `finally` counts the gate down once, but the `Error` still ends the worker's loop. Then that worker's later attempts never count down, so `endGate.await()` never returns when the `Error` comes on any attempt (version 011) or before the worker's last attempt (version 017); in version 017 an `Error` on a worker's last attempt still lets the gate drain.
- The aggregator is an object passed to each run rather than two static fields.
