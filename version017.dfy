/**
 * The version-017 harness (`Version017TestCommon.testMultiThread`): 320
 * orders are submitted by `threadCount` workers with one of three
 * strategies that differ only in how goods and users are identified
 * (`long`, `int` or a UUID string). Each run records its average latency
 * and throughput per strategy, and must end with the stock sold out.
 */
module Version017 {
  import opened Common
  import opened Assignment
  import opened Metrics

  /** Orders submitted per run. */
  const SubmitCnt: int := 320

  /** Units bought by each order. */
  const GoodsCount: int := 1

  /** The strategies this harness accepts, named by their identifier type. */
  datatype Variant = LongId | IntegerId | StringId

  function ClassOf(v: Variant): VersionClass {
    match v
    case LongId => Version017LongId
    case IntegerId => Version017IntegerId
    case StringId => Version017StringId
  }

  /**
   * The two parameter checks, in the source's order: first the thread
   * count must lie in `1 .. SubmitCnt`, then the class must be one of the
   * three strategy classes (a null class is rejected too).
   */
  function CheckParams(threadCount: int, c: VersionClass): (r: Result<Variant, RunError>)
    ensures r == Err(InvalidThreadCount) <==> threadCount < 1 || threadCount > SubmitCnt
    ensures r == Err(InvalidVersionClass) <==>
              1 <= threadCount <= SubmitCnt && forall v :: ClassOf(v) != c
    ensures r.Ok? <==> 1 <= threadCount <= SubmitCnt && exists v :: ClassOf(v) == c
    ensures r.Ok? ==> ClassOf(r.value) == c
  {
    if threadCount < 1 || threadCount > SubmitCnt then
      Err(InvalidThreadCount)
    else if c == NullClass
            || (c != Version017LongId && c != Version017IntegerId && c != Version017StringId) then
      Err(InvalidVersionClass)
    else
      var v := if c == Version017LongId then LongId else if c == Version017IntegerId then IntegerId else StringId;
      assert ClassOf(v) == c;
      Ok(v)
  }

  // ---------------------------------------------------------------------
  // Identifiers of the goods row and the user

  /** Every character is a decimal digit. */
  predicate IsDigits(s: string) {
    forall i :: 0 <= i < |s| ==> '0' <= s[i] <= '9'
  }

  /** The number a string of decimal digits denotes. */
  function DecimalValue(s: string): nat
    requires IsDigits(s)
  {
    if s == [] then 0 else 10 * DecimalValue(s[..|s| - 1]) + (s[|s| - 1] as int - '0' as int)
  }

  predicate IsHexDigit(ch: char) {
    '0' <= ch <= '9' || 'a' <= ch <= 'f' || 'A' <= ch <= 'F'
  }

  /** A single-quoted SQL string literal holding a UUID in its 8-4-4-4-12 form. */
  predicate IsQuotedUuid(s: string) {
    && |s| == 38
    && s[0] == '\'' && s[37] == '\''
    && forall i :: 1 <= i < 37 ==>
         if i == 9 || i == 14 || i == 19 || i == 24 then s[i] == '-' else IsHexDigit(s[i])
  }

  /** The classes whose strategies take numeric identifiers. */
  predicate HasNumericIds(c: VersionClass) {
    c == Version017IntegerId || c == Version017LongId
  }

  const UuidOne: string := "'00000000-0000-0000-0000-000000000001'"

  /**
   * `getGoodsId(versionClazz)`: the id of the goods row as it is spliced
   * into SQL. The numeric strategies get a decimal number, which is also
   * what `Long.parseLong` and `Integer.parseInt` are handed, so those
   * parses succeed; every other class (a null one included) gets a quoted
   * UUID literal.
   */
  function GoodsId(c: VersionClass): (id: string)
    ensures HasNumericIds(c) ==> id == "1" && IsDigits(id) && DecimalValue(id) == 1
    ensures !HasNumericIds(c) ==> IsQuotedUuid(id) && id == UuidOne
  {
    if c == Version017IntegerId || c == Version017LongId then "1"
    else "'00000000-0000-0000-0000-000000000001'"
  }

  /** `getUserId(versionClazz)`: chosen by the same rule as the goods id. */
  function UserId(c: VersionClass): (id: string)
    ensures HasNumericIds(c) ==> id == "1" && IsDigits(id) && DecimalValue(id) == 1
    ensures !HasNumericIds(c) ==> IsQuotedUuid(id) && id == UuidOne
  {
    if c == Version017IntegerId || c == Version017LongId then "1"
    else "'00000000-0000-0000-0000-000000000001'"
  }

  // ---------------------------------------------------------------------
  // The final assertion

  /**
   * `assertEquals(afterStock == 0, true)`: every strategy must sell the
   * stock out. Whenever the initial stock is no more than the run orders,
   * that is: the run ends at the stock a correct run leaves.
   */
  predicate StockAssertionHolds(afterStock: int): (ok: bool)
    ensures ok <==> afterStock == 0
    ensures forall initStock :: initStock <= SubmitCnt * GoodsCount ==>
              (ok <==> afterStock == ExpectedStock(initStock, SubmitCnt, GoodsCount))
  {
    afterStock == 0
  }

  /**
   * The assertion compares with zero rather than with the expected stock;
   * the two agree on every final stock if, and only if, the initial stock
   * is no more than the run orders.
   */
  lemma {:induction false} AssertionMatchesExpectedStockIff(initStock: int)
    ensures (forall after :: StockAssertionHolds(after) <==> after == ExpectedStock(initStock, SubmitCnt, GoodsCount))
            <==> initStock <= SubmitCnt * GoodsCount
  {
    if initStock > SubmitCnt * GoodsCount {
      assert !StockAssertionHolds(ExpectedStock(initStock, SubmitCnt, GoodsCount));
    }
  }

  // ---------------------------------------------------------------------
  // One run

  /**
   * One call of `testMultiThread`, with the clock readings replaced by the
   * elapsed time and the stock read after the run given as `afterStock`.
   * `endGateLeft` is the end gate's count once every worker is done; it is
   * zero, so `endGate.await()` returns (no gate exists when the parameters
   * are rejected, and then it is reported as zero).
   * Invalid parameters are rejected before any assignment is built, any
   * attempt made or any metric recorded. Otherwise every worker runs its
   * share, the end gate reaches zero exactly when all `SubmitCnt` attempts
   * are done, the average latency is appended to the strategy's list, and
   * only then is the throughput computed: when the average is zero that
   * division throws, leaving the latency recorded and the throughput not.
   * Last comes the assertion on the final stock.
   */
  method TestMultiThread(agg: Aggregator<Variant>, threadCount: int, c: VersionClass,
                         elapsedNanos: int, afterStock: int)
    returns (r: Result<Report, RunError>, attempts: nat, endGateLeft: nat)
    requires agg.Valid()
    modifies agg.avgNanoTimeMap, agg.avgSubmitTimesMap
    ensures agg.Valid()
    ensures CheckParams(threadCount, c).Err? ==>
              && r == Err(CheckParams(threadCount, c).error)
              && attempts == 0
              && agg.NanoLog() == old(agg.NanoLog())
              && agg.SubmitLog() == old(agg.SubmitLog())
    ensures CheckParams(threadCount, c).Ok? ==>
              var v := CheckParams(threadCount, c).value;
              var avg := AverageNanos(elapsedNanos, SubmitCnt);
              && attempts == SubmitCnt
              && endGateLeft == 0
              && agg.NanoLog() == Record(old(agg.NanoLog()), v, avg)
              && (avg == 0 ==> r == Err(DivisionByZero) && agg.SubmitLog() == old(agg.SubmitLog()))
              && (avg != 0 ==> agg.SubmitLog() == Record(old(agg.SubmitLog()), v, Throughput(avg).value))
              && (avg != 0 && !StockAssertionHolds(afterStock) ==> r == Err(StockAssertionFailed(afterStock)))
              && (avg != 0 && StockAssertionHolds(afterStock) ==> r == Ok(Report(avg, Throughput(avg).value)))
  {
    var checked := CheckParams(threadCount, c);
    if checked.Err? {
      r, attempts, endGateLeft := Err(checked.error), 0, 0;
      return;
    }
    var v := checked.value;
    var threadSubmitTimesMap := GetThreadSubmitTimesMap(threadCount, SubmitCnt);
    var perWorker;
    endGateLeft, attempts, perWorker := CountDownAll(threadCount, threadSubmitTimesMap.entries, SubmitCnt);
    var avgTimeNanos := AverageNanos(elapsedNanos, SubmitCnt);
    agg.UpdateAvgNanoTime(v, avgTimeNanos);
    var avgSubmitTimes := Throughput(avgTimeNanos);
    if avgSubmitTimes.Err? {
      r := Err(avgSubmitTimes.error);
      return;
    }
    agg.UpdateAvgSubmitTimes(v, avgSubmitTimes.value);
    if StockAssertionHolds(afterStock) {
      r := Ok(Report(avgTimeNanos, avgSubmitTimes.value));
    } else {
      r := Err(StockAssertionFailed(afterStock));
    }
  }
}
