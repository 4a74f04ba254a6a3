/** The delay before a refused message is tried again, in nanoseconds held by an int64. */
module RetryDelay {
  import opened Outbox

  type Unit = u: real | 0.0 <= u < 1.0   // what rand.Float64 returns

  function Wrap64(x: int): int {
    (x + 0x8000_0000_0000_0000) % 0x1_0000_0000_0000_0000 - 0x8000_0000_0000_0000
  }

  function Pow4(a: int): int { (a * a) * (a * a) }

  // time.Duration(float64) drops the fraction, toward zero.
  function TowardZero(x: real): int {
    if x >= 0.0 then x.Floor else -((-x).Floor)
  }

  function BaseDelay(attempt: nat): int {
    var d := Wrap64(Pow4(attempt) * SECOND);
    if d > BACKOFF_CAP then BACKOFF_CAP else d
  }

  function Jittered(d: int, u: Unit): int {
    TowardZero(d as real * (1.0 + (u * 0.2 - 0.1)))
  }

  function Backoff(attempt: nat, u: Unit): int {
    Jittered(BaseDelay(attempt), u)
  }

  /** Within ten percent of attempt^4 seconds, or of an hour when that is less. */
  predicate GoodDelay(attempt: nat, delay: int) {
    var d := if Pow4(attempt) * SECOND < HOUR then Pow4(attempt) * SECOND else HOUR;
    delay > 0 && 9 * d <= 10 * delay <= 11 * d
  }

  lemma MulMonotone(a: nat, b: nat, c: nat, d: nat)
    requires a <= b && c <= d
    ensures a * c <= b * d
  {
    assert b * d == a * c + a * (d - c) + (b - a) * d;
  }

  lemma Pow4Monotone(a: nat, b: nat)
    requires a <= b
    ensures Pow4(a) <= Pow4(b)
  {
    MulMonotone(a, b, a, b);
    MulMonotone(a * a, b * b, a * a, b * b);
  }

  lemma RealScale(d: real, j: real)
    requires d >= 0.0 && 0.9 <= j <= 1.1
    ensures d * 0.9 <= d * j <= d * 1.1
  {
    assert d * (j - 0.9) >= 0.0 && d * (1.1 - j) >= 0.0;
  }

  lemma JitterBounds(d: int, u: Unit)
    requires d > 0 && d % 10 == 0
    ensures 9 * d <= 10 * Jittered(d, u) <= 11 * d
  {
    hide TowardZero;
    var j := 1.0 + (u * 0.2 - 0.1);
    var k := d / 10;
    assert d == 10 * k;
    RealScale(d as real, j);
    FloorBetween(d as real * j, d, k);
  }

  lemma FloorBetween(x: real, d: int, k: nat)
    requires d == 10 * k && d as real * 0.9 <= x <= d as real * 1.1
    ensures 9 * k <= TowardZero(x) <= 11 * k
  {
    assert (10 * k) as real == 10.0 * k as real;
    assert (9 * k) as real <= x <= (11 * k) as real;
  }

  lemma WrapFits(x: int)
    requires -0x8000_0000_0000_0000 <= x < 0x8000_0000_0000_0000
    ensures Wrap64(x) == x
  {
  }

  lemma BaseDelayFits(attempt: nat)
    requires 1 <= attempt <= 309
    ensures BaseDelay(attempt) == if Pow4(attempt) * SECOND < HOUR then Pow4(attempt) * SECOND else HOUR
    ensures BaseDelay(attempt) > 0 && BaseDelay(attempt) % 10 == 0
  {
    var p := Pow4(attempt);
    assert 1 <= p <= 9116621361 by {
      Pow4Monotone(1, attempt);
      Pow4Monotone(attempt, 309);
      assert Pow4(309) == 9116621361;
    }
    hide Pow4, Wrap64;
    WrapFits(p * SECOND);
    assert (p * SECOND) % 10 == 0 by {
      assert p * SECOND == 10 * (p * 100_000_000);
    }
  }

  lemma BackoffGood(attempt: nat, u: Unit)
    requires 1 <= attempt <= 309
    ensures GoodDelay(attempt, Backoff(attempt, u))
  {
    BaseDelayFits(attempt);
    JitterBounds(BaseDelay(attempt), u);
    hide BaseDelay, Pow4, Jittered;
  }

  // 310^4 seconds do not fit an int64 of nanoseconds.
  lemma BackoffOverflows(u: Unit)
    ensures Backoff(310, u) < 0
  {
    assert Pow4(310) == 9235210000;
    var d := BaseDelay(310);
    assert d == 9235210000 * SECOND - 0x1_0000_0000_0000_0000;
    var j: real := 1.0 + (u * 0.2 - 0.1);
    assert 0.9 <= j;
    RealScale((-d) as real, j);
    assert d as real * j == -((-d) as real * j);
  }

  /** Every delay the relay can ask for is good exactly when max_attempts is at most 310:
      attempt numbers below max_attempts are the ones that are rescheduled. */
  lemma DelaysGoodIffMaxAttempts(maxAttempts: int)
    ensures (forall a: nat, u: Unit :: 1 <= a < maxAttempts ==> GoodDelay(a, Backoff(a, u)))
            <==> maxAttempts <= 310
  {
    forall a: nat, u: Unit | 1 <= a < maxAttempts && maxAttempts <= 310
      ensures GoodDelay(a, Backoff(a, u))
    {
      BackoffGood(a, u);
    }
    if maxAttempts > 310 {
      BackoffOverflows(0.5);
      assert !GoodDelay(310, Backoff(310, 0.5));
    }
  }
}
