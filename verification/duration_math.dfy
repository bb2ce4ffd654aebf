/**
 * The integer helpers of the pod planner (impressions.go): Go's truncating
 * division, `max`, `isMultipleOf` and the three "closest factor" roundings.
 * `math.Round` and `math.Mod` are applied there to small integers held in
 * float64, so they are stated exactly on integers here. The rounding
 * helpers take the factor as a parameter in Go, but every call passes the
 * package-level `multipleOf`, which is 5; they are stated for that factor.
 */
module DurationMath {

  /** The package-level `multipleOf`: durations are snapped to multiples of 5. */
  const MultipleOf: int := 5

  /** Go's `/` on int64: the quotient truncated toward zero. */
  function Quo(a: int, b: int): (q: int)
    requires b != 0
    ensures b > 0 && a >= 0 ==> q == a / b
    ensures b > 0 && a >= 0 ==> 0 <= q <= a
    ensures b > 0 && a < 0 ==> a <= q <= 0
    ensures var rem := a - q * b; var mag := if b < 0 then -b else b;
      (a >= 0 ==> 0 <= rem < mag) && (a < 0 ==> -mag < rem <= 0)
  {
    if a >= 0 then
      if b > 0 then DivAtMost(a, b); RemNatPos(a, b); a / b
      else DivAtMost(a, -b); RemNatNeg(a, b); -(a / -b)
    else
      if b > 0 then DivAtMost(-a, b); RemNegPos(a, b); -((-a) / b)
      else DivAtMost(-a, -b); RemNegNeg(a, b); (-a) / (-b)
  }

  /** The remainder left by each of the four sign cases of `Quo`. */
  lemma RemNatPos(a: nat, b: int)
    requires b > 0
    ensures 0 <= a - (a / b) * b < b
  {
    assert a == (a / b) * b + a % b;
  }

  lemma RemNatNeg(a: nat, b: int)
    requires b < 0
    ensures 0 <= a - (-(a / -b)) * b < -b
  {
    var x := a / -b;
    RemNatPos(a, -b);
    assert -x * b == x * -b;
  }

  lemma RemNegPos(a: int, b: int)
    requires a < 0 && b > 0
    ensures -b < a - (-((-a) / b)) * b <= 0
  {
    var x := (-a) / b;
    RemNatPos(-a, b);
    assert -x * b == -(x * b);
  }

  lemma RemNegNeg(a: int, b: int)
    requires a < 0 && b < 0
    ensures b < a - ((-a) / (-b)) * b <= 0
  {
    var x := (-a) / (-b);
    RemNatPos(-a, -b);
    assert x * b == -(x * -b);
  }

  lemma DivAtMost(a: nat, b: int)
    requires b > 0
    ensures 0 <= a / b <= a
  {
    var q := a / b;
    assert a == q * b + a % b && 0 <= a % b;
    if q > a {
      MulNonNeg(q, b - 1);
    }
  }

  lemma MulNonNeg(x: nat, y: nat)
    ensures x * y >= 0
  {
  }

  /** `max(num1, num2)`. */
  function Max(a: int, b: int): (r: int)
    ensures r >= a && r >= b
    ensures r == a || r == b
  {
    if a > b then a else if b > a then b else a
  }

  /**
   * `isMultipleOf`: `math.Mod(n, m) == 0`. With `m == 0` Go's `Mod`
   * yields NaN, which is never equal to zero.
   */
  predicate IsMultipleOf(n: int, m: int) {
    m != 0 && n % m == 0
  }

  /**
   * `getClosetFactor(n, 5)`: `n / 5` rounded half away from zero
   * (`math.Round`), times 5.
   */
  function ClosestFactor(n: int): (c: int)
    ensures c % MultipleOf == 0
    ensures n >= 0 ==> 2 * n - MultipleOf < 2 * c <= 2 * n + MultipleOf
    ensures n < 0 ==> 2 * n - MultipleOf <= 2 * c < 2 * n + MultipleOf
    ensures n >= 0 ==> c >= 0
  {
    if n >= 0 then RoundUpHalf(n) else -RoundUpHalf(-n)
  }

  /** For `n >= 0`: `floor(n / 5 + 1/2) * 5`, the nearest multiple, ties up. */
  function RoundUpHalf(n: nat): (c: int)
    ensures c % MultipleOf == 0 && c >= 0
    ensures 2 * n - MultipleOf < 2 * c <= 2 * n + MultipleOf
  {
    ((2 * n + MultipleOf) / (2 * MultipleOf)) * MultipleOf
  }

  /** `math.Round` is symmetric: negating the input negates the factor. */
  lemma ClosestFactorOdd(n: int)
    ensures ClosestFactor(-n) == -ClosestFactor(n)
  {
  }

  /** A duration is a multiple of 5 exactly when `ClosestFactor` keeps it. */
  lemma IsMultipleOfExact(n: int)
    ensures IsMultipleOf(n, MultipleOf) <==> ClosestFactor(n) == n
  {
  }

  /**
   * `getClosetFactorForMinDuration(n, 5)`: rounds `n` to its closest factor
   * and pushes the result back up when it fell below `n`; a zero result is
   * replaced by 5 itself.
   */
  function ClosestFactorForMinDuration(n: int): (r: int)
    ensures r % MultipleOf == 0 && r >= n
    ensures r - MultipleOf < n || r == MultipleOf
  {
    var c := ClosestFactor(n);
    if c == 0 then MultipleOf
    else if c == n then n
    else if c < n then NextMultiple(c); c + MultipleOf
    else c
  }

  /** Stepping by 5 leaves the remainder modulo 5 alone. */
  lemma NextMultiple(c: int)
    ensures (c + MultipleOf) % MultipleOf == c % MultipleOf
  {
    var q, m := c / MultipleOf, c % MultipleOf;
    assert c + MultipleOf == (q + 1) * MultipleOf + m;
  }

  /**
   * For every positive duration, `ClosestFactorForMinDuration` is the
   * smallest multiple of 5 not below it; a zero duration gives 5.
   */
  lemma MinDurationIsLeastMultiple(n: int)
    ensures n >= 0 ==> ClosestFactorForMinDuration(n) == (if n == 0 then MultipleOf else LeastMultipleAtLeast(n))
  {
  }

  /** The reference reading of `ClosestFactorForMinDuration`. */
  function LeastMultipleAtLeast(n: int): (r: int)
    ensures r % MultipleOf == 0 && r - MultipleOf < n <= r
  {
    if n % MultipleOf == 0 then n else n - n % MultipleOf + MultipleOf
  }

  /**
   * The loop of `getClosetFactorForMaxDuration`: starting at the multiple
   * `i`, step by 5 until past `n`. Because `n` is not a multiple of 5 the
   * loop never sits on `n`, so it always makes progress.
   */
  function StepPast(i: int, n: int): (r: int)
    requires i % MultipleOf == 0 && n % MultipleOf != 0
    requires i - MultipleOf < n
    ensures r % MultipleOf == 0 && n < r && r - MultipleOf < n
    decreases n - i
  {
    if i <= n then StepPast(i + MultipleOf, n) else i
  }

  /**
   * `getClosetFactorForMaxDuration(n, 5)`: the largest multiple of 5 not
   * above `n`, except that a zero result is replaced by `n` itself.
   */
  function ClosestFactorForMaxDuration(n: int): (r: int)
    ensures r <= n
    ensures r == n || (r % MultipleOf == 0 && n - MultipleOf < r && r != 0)
    ensures n % MultipleOf == 0 ==> r == n
  {
    var c := ClosestFactor(n);
    ClosestFactorNear(n);
    if c == n then n
    else
      var closed := StepPast(c, n);
      NextMultiple(closed - MultipleOf);
      var duration := closed - MultipleOf;
      if duration == 0 then n else duration
  }

  /** The closest factor lies less than 5 below `n`, and keeps a multiple of 5. */
  lemma ClosestFactorNear(n: int)
    ensures ClosestFactor(n) - MultipleOf < n
    ensures n % MultipleOf == 0 ==> ClosestFactor(n) == n
  {
    var c := ClosestFactor(n);
    var j := c / MultipleOf;
    assert c == MultipleOf * j;
    if n % MultipleOf == 0 {
      var k := n / MultipleOf;
      assert n == MultipleOf * k;
      assert 10 * k - 5 <= 10 * j <= 10 * k + 5;
    }
  }

  /** The reference reading of `ClosestFactorForMaxDuration`. */
  function LargestMultipleAtMost(n: int): (r: int)
    ensures r % MultipleOf == 0 && r <= n < r + MultipleOf
  {
    n - n % MultipleOf
  }

  /**
   * `ClosestFactorForMaxDuration` is the largest multiple of 5 not above
   * `n`, or `n` itself when that multiple is 0: so 1 .. 4 come back
   * unchanged and it never exceeds its input.
   */
  lemma MaxDurationIsGreatestMultiple(n: int)
    ensures var r := ClosestFactorForMaxDuration(n);
      r == (if LargestMultipleAtMost(n) == 0 then n else LargestMultipleAtMost(n))
  {
    var m := LargestMultipleAtMost(n);
    var r := ClosestFactorForMaxDuration(n);
    if r != n {
      var qr, qm := r / MultipleOf, m / MultipleOf;
      assert r == MultipleOf * qr && m == MultipleOf * qm;
      assert qr == qm;
    }
  }

  /** Concrete values of the three roundings. */
  lemma RoundingExamples()
    ensures ClosestFactor(9) == 10 && ClosestFactor(126) == 125 && ClosestFactor(134) == 135
    ensures ClosestFactor(2) == 0 && ClosestFactor(-3) == -5
    ensures ClosestFactorForMinDuration(1) == 5 && ClosestFactorForMinDuration(4) == 5
    ensures ClosestFactorForMinDuration(8) == 10 && ClosestFactorForMinDuration(11) == 15
    ensures ClosestFactorForMinDuration(127) == 130 && ClosestFactorForMinDuration(0) == 5
    ensures ClosestFactorForMaxDuration(4) == 4 && ClosestFactorForMaxDuration(128) == 125
    ensures ClosestFactorForMaxDuration(17) == 15 && ClosestFactorForMaxDuration(9) == 5
    ensures !IsMultipleOf(5, 6)
  {
    MaxDurationIsGreatestMultiple(4);
    MaxDurationIsGreatestMultiple(128);
    MaxDurationIsGreatestMultiple(17);
    MaxDurationIsGreatestMultiple(9);
  }
}
