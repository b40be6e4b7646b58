/**
 * The version-011 harness (`Version011TestCommon.testMultiThread`): 321
 * orders of one unit each are submitted by `threadCount` workers with one
 * of three strategies, `Bad`, `Good` or `Wrong`, and the final stock is
 * then checked against the rule for that strategy.
 */
module Version011 {
  import opened Common
  import opened Assignment

  /** Orders submitted per run. */
  const SubmitCnt: int := 321

  /** Units bought by each order. */
  const GoodsCount: int := 1

  /** The strategies this harness accepts. */
  datatype Variant = Bad | Good | Wrong

  function ClassOf(v: Variant): VersionClass {
    match v
    case Bad => Version011Bad
    case Good => Version011Good
    case Wrong => Version011Wrong
  }

  /**
   * The two parameter checks, in the source's order: first the thread
   * count must lie in `1 .. SubmitCnt`, then the class must be one of the
   * three strategy classes (a null class is rejected too).
   */
  function CheckParams(threadCount: int, c: VersionClass): (r: Result<Variant, RunError>)
    ensures r == Err(InvalidThreadCount) <==> threadCount < 1 || threadCount > SubmitCnt
    ensures r == Err(InvalidVersionClass) <==>
              1 <= threadCount <= SubmitCnt && forall v :: ClassOf(v) != c
    ensures r.Ok? <==> 1 <= threadCount <= SubmitCnt && exists v :: ClassOf(v) == c
    ensures r.Ok? ==> ClassOf(r.value) == c
  {
    if threadCount < 1 || threadCount > SubmitCnt then
      Err(InvalidThreadCount)
    else if c == NullClass || (c != Version011Bad && c != Version011Good && c != Version011Wrong) then
      Err(InvalidVersionClass)
    else
      var v := if c == Version011Bad then Bad else if c == Version011Good then Good else Wrong;
      assert ClassOf(v) == c;
      Ok(v)
  }

  /**
   * The final assertion: `Bad` and `Good` must have sold the stock out,
   * `Wrong` must have left some. Whenever the initial stock is no more
   * than the run orders, that is: a correct strategy ends at the stock a
   * correct run leaves, and `Wrong` above it.
   */
  predicate StockAssertionHolds(v: Variant, afterStock: int): (ok: bool)
    ensures ok ==> afterStock >= 0
    ensures v != Wrong ==> (ok <==> afterStock == 0)
    ensures v == Wrong ==> (ok <==> afterStock > 0)
    ensures forall initStock :: initStock <= SubmitCnt * GoodsCount ==>
              (ok <==> if v == Wrong then afterStock > ExpectedStock(initStock, SubmitCnt, GoodsCount)
                       else afterStock == ExpectedStock(initStock, SubmitCnt, GoodsCount))
  {
    match v
    case Bad | Good => afterStock == 0
    case Wrong => afterStock > 0
  }

  /**
   * The assertion compares with zero rather than with the expected stock.
   * It says exactly "correct strategies end at the expected stock, the
   * `Wrong` one above it" for every final stock if, and only if, the
   * initial stock is no more than the run orders.
   */
  lemma {:induction false} AssertionMatchesExpectedStockIff(v: Variant, initStock: int)
    ensures (forall after :: StockAssertionHolds(v, after) <==>
               (if v == Wrong then after > ExpectedStock(initStock, SubmitCnt, GoodsCount) else after == ExpectedStock(initStock, SubmitCnt, GoodsCount)))
            <==> initStock <= SubmitCnt * GoodsCount
  {
    if initStock > SubmitCnt * GoodsCount {
      var e := ExpectedStock(initStock, SubmitCnt, GoodsCount);
      if v == Wrong {
        assert StockAssertionHolds(v, 1) && !(1 > e);
      } else {
        assert !StockAssertionHolds(v, e);
      }
    }
  }

  /**
   * One call of `testMultiThread`, with the clock readings replaced by the
   * elapsed time and the stock read after the run given as `afterStock`.
   * `endGateLeft` is the end gate's count once every worker is done; it is
   * zero, so `endGate.await()` returns (no gate exists when the parameters
   * are rejected, and then it is reported as zero).
   * Invalid parameters are rejected before any assignment is built or any
   * attempt made. Otherwise every worker runs its share of the assignment,
   * the end gate reaches zero exactly when all `SubmitCnt` attempts are
   * done, the average and throughput are computed (the throughput throws
   * when the average is zero), and the final stock is asserted.
   */
  method TestMultiThread(threadCount: int, c: VersionClass, elapsedNanos: int, afterStock: int)
    returns (r: Result<Report, RunError>, attempts: nat, endGateLeft: nat)
    ensures threadCount < 1 || threadCount > SubmitCnt ==> r == Err(InvalidThreadCount) && attempts == 0
    ensures 1 <= threadCount <= SubmitCnt && (forall v :: ClassOf(v) != c) ==>
              r == Err(InvalidVersionClass) && attempts == 0
    ensures CheckParams(threadCount, c).Ok? ==>
              var v := CheckParams(threadCount, c).value;
              var avg := AverageNanos(elapsedNanos, SubmitCnt);
              && attempts == SubmitCnt
              && endGateLeft == 0
              && (avg == 0 ==> r == Err(DivisionByZero))
              && (avg != 0 && !StockAssertionHolds(v, afterStock) ==> r == Err(StockAssertionFailed(afterStock)))
              && (avg != 0 && StockAssertionHolds(v, afterStock) ==>
                    r == Ok(Report(avg, Throughput(avg).value)))
  {
    var checked := CheckParams(threadCount, c);
    if checked.Err? {
      r, attempts, endGateLeft := Err(checked.error), 0, 0;
      return;
    }
    var v := checked.value;
    var threadSubmitTimesMap := GetThreadSubmitTimesMap(threadCount, SubmitCnt);
    var perWorker;
    endGateLeft, attempts, perWorker := CountDownAll(threadCount, threadSubmitTimesMap.entries, SubmitCnt);
    var avgTimeNanos := AverageNanos(elapsedNanos, SubmitCnt);
    var avgSubmitTimes := Throughput(avgTimeNanos);
    if avgSubmitTimes.Err? {
      r := Err(avgSubmitTimes.error);
      return;
    }
    if StockAssertionHolds(v, afterStock) {
      r := Ok(Report(avgTimeNanos, avgSubmitTimes.value));
    } else {
      r := Err(StockAssertionFailed(afterStock));
    }
  }
}
