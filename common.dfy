/**
 * Values shared by both versions of the order-submission harness: the
 * classes a run can be handed, the ways a run can fail, and the Java
 * `long` arithmetic that turns an elapsed time into an average latency
 * and a throughput.
 */
module Common {

  datatype Result<T, E> = Ok(value: T) | Err(error: E)

  /**
   * The `Class` argument of `testMultiThread`. `NullClass` stands for a
   * null reference and `OtherClass` for any class the harnesses do not
   * know; the six named constructors are the strategy classes the two
   * harness versions dispatch on.
   */
  datatype VersionClass =
    | NullClass
    | Version011Bad
    | Version011Good
    | Version011Wrong
    | Version017LongId
    | Version017IntegerId
    | Version017StringId
    | OtherClass(name: string)

  /** The ways one call of `testMultiThread` ends without passing. */
  datatype RunError =
    | InvalidThreadCount                  // RuntimeException: threadCount out of range
    | InvalidVersionClass                 // RuntimeException: unknown or null strategy class
    | DivisionByZero                      // ArithmeticException from NANO_OF_ONE_SECOND / 0
    | StockAssertionFailed(afterStock: int)  // the final assertEquals on the stock fails

  /** What a passing run measured. */
  datatype Report = Report(avgTimeNanos: int, avgSubmitTimes: int)

  /** Nanoseconds in one second. */
  const NanoOfOneSecond: int := 1_000_000_000

  function Abs(x: int): nat {
    if x < 0 then -x else x
  }

  /**
   * Java's `/` on `long`: the quotient truncated toward zero (Dafny's own
   * `/` is Euclidean and differs for negative operands).
   */
  function JavaDiv(a: int, b: int): (q: int)
    requires b != 0
    ensures Abs(q) * Abs(b) <= Abs(a) < (Abs(q) + 1) * Abs(b)
    ensures (a >= 0 && b > 0) || (a <= 0 && b < 0) ==> q >= 0
    ensures (a >= 0 && b < 0) || (a <= 0 && b > 0) ==> q <= 0
  {
    var n := Abs(a) / Abs(b);
    DivBounds(Abs(a), Abs(b));
    var q := if (a >= 0) == (b > 0) then n else -n;
    assert Abs(q) == n;
    q
  }

  lemma DivBounds(x: nat, y: nat)
    requires y > 0
    ensures (x / y) * y <= x < (x / y + 1) * y
  {
  }

  /**
   * `avgTimeNanos = (endTimeNanos - startTimeNanos) / submitCnt`, with the
   * elapsed time given as a parameter: the average latency of one
   * submission, rounded toward zero.
   */
  function AverageNanos(elapsedNanos: int, submitCnt: int): (avg: int)
    requires submitCnt > 0
    ensures elapsedNanos >= 0 ==> 0 <= avg && avg * submitCnt <= elapsedNanos < (avg + 1) * submitCnt
    ensures elapsedNanos < 0 ==> avg <= 0 && -avg * submitCnt <= -elapsedNanos < (-avg + 1) * submitCnt
    ensures avg > 0 <==> elapsedNanos >= submitCnt
    ensures avg == 0 <==> -submitCnt < elapsedNanos < submitCnt
  {
    JavaDiv(elapsedNanos, submitCnt)
  }

  /**
   * What a correct strategy leaves after a run: the initial stock less
   * everything ordered, but never below zero.
   */
  function ExpectedStock(initStock: int, submitCnt: int, goodsCount: int): (s: int)
    ensures s >= 0
    ensures s == 0 <==> initStock <= submitCnt * goodsCount
    ensures s > 0 ==> s + submitCnt * goodsCount == initStock
  {
    if initStock - submitCnt * goodsCount > 0 then initStock - submitCnt * goodsCount else 0
  }

  /**
   * `avgSubmitTimes = NANO_OF_ONE_SECOND / avgTimeNanos`: how many orders of
   * the average latency fit in one second. Java throws an
   * ArithmeticException when the average is zero.
   */
  function Throughput(avgTimeNanos: int): (r: Result<int, RunError>)
    ensures r.Err? <==> avgTimeNanos == 0
    ensures r.Err? ==> r.error == DivisionByZero
    ensures avgTimeNanos > 0 ==>
              && r.Ok? && r.value >= 0
              && r.value * avgTimeNanos <= NanoOfOneSecond < (r.value + 1) * avgTimeNanos
    ensures avgTimeNanos < 0 ==>
              && r.Ok? && r.value <= 0
              && -r.value * -avgTimeNanos <= NanoOfOneSecond < (-r.value + 1) * -avgTimeNanos
  {
    if avgTimeNanos == 0 then Err(DivisionByZero)
    else Ok(JavaDiv(NanoOfOneSecond, avgTimeNanos))
  }
}
