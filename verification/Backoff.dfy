/** How long the API client waits before it tries again. Durations are seconds as
    real numbers; the attempt number and the jitter are read as the code reads them. */
module Backoff {
  import opened Common

  datatype Config = Config(initialDelay: real, maxDelay: real, multiplier: real)

  /** Durations are never negative. */
  predicate Valid(c: Config) {
    c.initialDelay >= 0.0 && c.maxDelay >= 0.0
  }

  /** `attempt as i32`: the upper half of the unsigned range comes out negative. */
  function Exponent(attempt: nat): int {
    if attempt < 0x8000_0000 then attempt else attempt - 0x1_0000_0000
  }

  function Power(x: real, n: nat): real {
    if n == 0 then 1.0 else x * Power(x, n - 1)
  }

  predicate Defined(c: Config, attempt: nat) {
    Valid(c) && attempt < 0x1_0000_0000 && (c.multiplier != 0.0 || Exponent(attempt) >= 0)
  }

  function Factor(x: real, e: int): real
    requires x != 0.0 || e >= 0
  {
    if e >= 0 then Power(x, e) else Power(1.0 / x, -e)
  }

  function Base(c: Config, attempt: nat): real
    requires Defined(c, attempt)
  {
    c.initialDelay * Factor(c.multiplier, Exponent(attempt))
  }

  /** A hundredth of the clock's last two digits. */
  function Jitter(nanos: nat): real {
    (nanos % 100) as real / 100.0
  }

  function Least(a: real, b: real): real {
    if a <= b then a else b
  }

  function Seconds(base: real, longest: real, nanos: nat): real {
    Least(base + base * 0.1 * Jitter(nanos), longest)
  }

  /** None is the panic of a duration made from a negative number. */
  function Delay(c: Config, attempt: nat, nanos: nat): Option<real>
    requires Defined(c, attempt)
  {
    var seconds := Seconds(Base(c, attempt), c.maxDelay, nanos);
    if seconds < 0.0 then None else Some(seconds)
  }

  // ---------------------------------------------------------------- one delay

  lemma JitterRange(nanos: nat)
    ensures 0.0 <= Jitter(nanos) <= 0.99
  {
  }

  lemma Scaled(base: real, nanos: nat)
    ensures base >= 0.0 ==> base <= base + base * 0.1 * Jitter(nanos) <= 1.099 * base
    ensures base < 0.0 ==> base + base * 0.1 * Jitter(nanos) < 0.0
  {
    JitterRange(nanos);
    var j := Jitter(nanos);
    assert base + base * 0.1 * j == base * (1.0 + 0.1 * j);
    if base >= 0.0 {
      Monotone(base, 1.0, 1.0 + 0.1 * j);
      Monotone(base, 1.0 + 0.1 * j, 1.099);
    } else {
      Monotone(-base, 1.0, 1.0 + 0.1 * j);
    }
  }

  lemma Monotone(a: real, x: real, y: real)
    requires a >= 0.0 && x <= y
    ensures a * x <= a * y
  {
  }

  lemma SecondsBounds(base: real, longest: real, nanos: nat)
    requires base >= 0.0
    ensures Least(base, longest) <= Seconds(base, longest, nanos) <= Least(1.099 * base, longest)
  {
    Scaled(base, nanos);
  }

  /** Jitter only ever adds, and less than a tenth: the wait lies between the
      plain delay and 1.099 times that, both cut off at the longest wait. */
  lemma DelayBounds(c: Config, attempt: nat, nanos: nat)
    requires Defined(c, attempt) && Base(c, attempt) >= 0.0
    ensures Delay(c, attempt, nanos).Some?
    ensures Least(Base(c, attempt), c.maxDelay) <= Delay(c, attempt, nanos).value
    ensures Delay(c, attempt, nanos).value <= Least(1.099 * Base(c, attempt), c.maxDelay)
  {
    SecondsBounds(Base(c, attempt), c.maxDelay, nanos);
  }

  /** The wait for a reading of the clock: the plain delay and, of its tenth, as
      many hundredths as the last two digits say, cut off at the longest wait. */
  lemma DelayIs(c: Config, attempt: nat, nanos: nat)
    requires Defined(c, attempt) && Base(c, attempt) >= 0.0
    ensures var seconds := Base(c, attempt) * (1.0 + (nanos % 100) as real / 1000.0);
            Delay(c, attempt, nanos) == Some(if seconds <= c.maxDelay then seconds else c.maxDelay)
  {
    Tenth(Base(c, attempt), (nanos % 100) as real);
    SecondsBounds(Base(c, attempt), c.maxDelay, nanos);
  }

  lemma Tenth(base: real, digits: real)
    ensures base + base * 0.1 * (digits / 100.0) == base * (1.0 + digits / 1000.0)
  {
  }

  /** There is no wait to be had exactly when the multiplier is negative, the
      attempt odd and the first delay not zero. */
  lemma PanicsIff(c: Config, attempt: nat, nanos: nat)
    requires Defined(c, attempt)
    ensures Delay(c, attempt, nanos).None? <==> c.initialDelay > 0.0 && c.multiplier < 0.0 && attempt % 2 == 1
  {
    var e := Exponent(attempt);
    Scaled(Base(c, attempt), nanos);
    if e >= 0 {
      PowerSign(c.multiplier, e);
    } else {
      Inverse(c.multiplier);
      PowerSign(1.0 / c.multiplier, -e);
    }
    SignOfProduct(c.initialDelay, Factor(c.multiplier, e));
  }

  lemma Inverse(x: real)
    requires x != 0.0
    ensures 1.0 / x < 0.0 <==> x < 0.0
  {
    assert x * (1.0 / x) == 1.0;
  }

  lemma SignOfProduct(a: real, x: real)
    requires a >= 0.0
    ensures a * x < 0.0 <==> a > 0.0 && x < 0.0
  {
  }

  lemma {:induction false} PowerSign(x: real, n: nat)
    ensures Power(x, n) < 0.0 <==> x < 0.0 && n % 2 == 1
    ensures x != 0.0 ==> Power(x, n) != 0.0
  {
    if n > 0 {
      PowerSign(x, n - 1);
      var p := Power(x, n - 1);
      if x >= 0.0 {
        SignOfProduct(x, p);
      } else if p >= 0.0 {
        SignOfProduct(p, x);
      } else {
        assert (-x) * (-p) == x * p;
      }
    }
  }

  // ---------------------------------------------------------------- one attempt after another

  ghost predicate NoShorter(base: real, next: real, longest: real) {
    forall now: nat, later: nat :: Seconds(base, longest, now) <= Seconds(next, longest, later)
  }

  lemma SecondsAtTheEnds(base: real, longest: real)
    ensures Seconds(base, longest, 99) == Least(1.099 * base, longest)
    ensures Seconds(base, longest, 0) == Least(base, longest)
  {
    assert Jitter(99) == 0.99 && Jitter(0) == 0.0;
  }

  lemma NoShorterIff(base: real, next: real, longest: real)
    requires base > 0.0 && next > 0.0
    ensures NoShorter(base, next, longest) <==> 1.099 * base <= next || next >= longest
  {
    forall now: nat, later: nat
      ensures 1.099 * base <= next || next >= longest ==> Seconds(base, longest, now) <= Seconds(next, longest, later)
    {
      SecondsBounds(base, longest, now);
      SecondsBounds(next, longest, later);
    }
    SecondsAtTheEnds(base, longest);
    SecondsAtTheEnds(next, longest);
  }

  lemma StrictlyMonotone(a: real, x: real, y: real)
    requires a > 0.0 && x < y
    ensures a * x < a * y
  {
  }

  /** Whatever the clock reads at either attempt, the next wait is no shorter:
      exactly when the multiplier covers the largest jitter, or the next plain
      delay already reaches the longest wait. */
  lemma NeverShorterIff(c: Config, attempt: nat)
    requires Valid(c) && c.initialDelay > 0.0 && c.multiplier > 0.0 && attempt + 1 < 0x8000_0000
    ensures NoShorter(Base(c, attempt), Base(c, attempt + 1), c.maxDelay) <==>
            c.multiplier >= 1.099 || Base(c, attempt + 1) >= c.maxDelay
    ensures forall nanos: nat ::
              Delay(c, attempt, nanos) == Some(Seconds(Base(c, attempt), c.maxDelay, nanos))
  {
    var base := Base(c, attempt);
    NextBase(c, attempt);
    NoShorterIff(base, Base(c, attempt + 1), c.maxDelay);
    forall nanos: nat ensures Delay(c, attempt, nanos) == Some(Seconds(base, c.maxDelay, nanos)) {
      SecondsBounds(base, c.maxDelay, nanos);
    }
  }

  lemma NextBase(c: Config, attempt: nat)
    requires Valid(c) && c.initialDelay > 0.0 && c.multiplier > 0.0 && attempt + 1 < 0x8000_0000
    ensures Base(c, attempt) > 0.0 && Base(c, attempt + 1) > 0.0
    ensures 1.099 * Base(c, attempt) <= Base(c, attempt + 1) <==> c.multiplier >= 1.099
  {
    PowerPositive(c.multiplier, attempt);
    Compared(c.initialDelay, c.multiplier, Power(c.multiplier, attempt));
  }

  lemma Compared(a: real, m: real, p: real)
    requires a > 0.0 && p > 0.0 && m > 0.0
    ensures a * p > 0.0 && a * (m * p) > 0.0
    ensures 1.099 * (a * p) <= a * (m * p) <==> m >= 1.099
  {
    var base := a * p;
    assert a * (m * p) == base * m;
    if m >= 1.099 {
      Monotone(base, 1.099, m);
    } else {
      StrictlyMonotone(base, m, 1.099);
    }
  }

  lemma {:induction false} PowerPositive(x: real, n: nat)
    requires x > 0.0
    ensures Power(x, n) > 0.0
  {
    if n > 0 {
      PowerPositive(x, n - 1);
    }
  }

  /** Past the signed range the number of attempts turns round: the plain delay
      is below the very first one. */
  lemma WrappedAttemptsWaitLess(c: Config, attempt: nat)
    requires Valid(c) && c.initialDelay > 0.0 && c.multiplier > 1.0
    requires 0x8000_0000 <= attempt < 0x1_0000_0000
    ensures Base(c, attempt) < c.initialDelay == Base(c, 0)
  {
    var n := -Exponent(attempt);
    var factor := Factor(c.multiplier, -n);
    InverseBelowOne(c.multiplier);
    PowerBelowOne(1.0 / c.multiplier, n);
    assert factor < 1.0;
    BelowStart(c.initialDelay, factor);
    assert Base(c, attempt) == c.initialDelay * factor;
    assert Factor(c.multiplier, Exponent(0)) == 1.0;
  }

  lemma InverseBelowOne(m: real)
    requires m > 1.0
    ensures 0.0 < 1.0 / m < 1.0
  {
    assert m * (1.0 / m) == 1.0;
  }

  lemma BelowStart(a: real, x: real)
    requires a > 0.0 && x < 1.0
    ensures a * x < a * 1.0 == a
  {
  }

  lemma {:induction false} PowerBelowOne(x: real, n: nat)
    requires 0.0 < x < 1.0 && n > 0
    ensures 0.0 < Power(x, n) < 1.0
  {
    if n > 1 {
      PowerBelowOne(x, n - 1);
    } else {
      assert Power(x, 1) == x * Power(x, 0);
    }
  }

  // ---------------------------------------------------------------- a whole series

  function Sum(waits: seq<real>): real {
    if waits == [] then 0.0 else Sum(waits[..|waits| - 1]) + waits[|waits| - 1]
  }

  predicate AllWithin(waits: seq<real>, longest: real) {
    forall i :: 0 <= i < |waits| ==> 0.0 <= waits[i] <= longest
  }

  lemma {:induction false} SumAtMostLongest(waits: seq<real>, longest: real)
    requires AllWithin(waits, longest)
    ensures 0.0 <= Sum(waits) <= |waits| as real * longest
  {
    if waits != [] {
      SumAtMostLongest(waits[..|waits| - 1], longest);
    }
  }

  function PlainTotal(c: Config, n: nat): real
    requires Valid(c) && c.multiplier > 0.0 && n <= 0x8000_0000
  {
    if n == 0 then 0.0 else PlainTotal(c, n - 1) + Base(c, n - 1)
  }

  lemma {:induction false} SumAtMostPlain(c: Config, waits: seq<real>)
    requires Valid(c) && c.multiplier > 0.0 && |waits| <= 0x8000_0000
    requires forall i :: 0 <= i < |waits| ==> waits[i] <= 1.099 * Base(c, i)
    ensures Sum(waits) <= 1.099 * PlainTotal(c, |waits|)
  {
    if waits != [] {
      SumAtMostPlain(c, waits[..|waits| - 1]);
    }
  }

  /** The plain delays make a geometric sum. */
  lemma {:induction false} PlainTotalIsGeometric(c: Config, n: nat)
    requires Valid(c) && c.multiplier > 0.0 && n <= 0x8000_0000
    ensures PlainTotal(c, n) * (c.multiplier - 1.0) == c.initialDelay * (Power(c.multiplier, n) - 1.0)
  {
    if n > 0 {
      PlainTotalIsGeometric(c, n - 1);
      var p, t := Power(c.multiplier, n - 1), PlainTotal(c, n - 1);
      assert PlainTotal(c, n) == t + c.initialDelay * p && Power(c.multiplier, n) == c.multiplier * p;
      GeometricStep(c.multiplier, p, c.initialDelay, t);
    }
  }

  lemma GeometricStep(m: real, p: real, a: real, t: real)
    requires t * (m - 1.0) == a * (p - 1.0)
    ensures (t + a * p) * (m - 1.0) == a * (m * p - 1.0)
  {
    assert (t + a * p) * (m - 1.0) == t * (m - 1.0) + a * p * (m - 1.0);
  }

  ghost predicate WaitsOf(c: Config, clock: seq<nat>, waits: seq<real>) {
    && Valid(c) && c.multiplier > 0.0 && |waits| == |clock| <= 0x8000_0000
    && forall i :: 0 <= i < |waits| ==> Delay(c, i, clock[i]) == Some(waits[i])
  }

  /** The waits at attempts 0, 1, ... together take at most the longest wait each time. */
  lemma TotalAtMostLongest(c: Config, clock: seq<nat>, waits: seq<real>)
    requires WaitsOf(c, clock, waits)
    ensures 0.0 <= Sum(waits) <= |waits| as real * c.maxDelay
  {
    EachWithinLongest(c, clock, waits);
    SumAtMostLongest(waits, c.maxDelay);
  }

  lemma EachWithinLongest(c: Config, clock: seq<nat>, waits: seq<real>)
    requires WaitsOf(c, clock, waits)
    ensures AllWithin(waits, c.maxDelay)
  {
    forall i | 0 <= i < |waits| ensures 0.0 <= waits[i] <= c.maxDelay {
      WaitBounds(c, i, clock[i], waits[i]);
    }
  }

  /** And at most the sum of the plain delays with the jitter on top. */
  lemma TotalAtMostPlain(c: Config, clock: seq<nat>, waits: seq<real>)
    requires WaitsOf(c, clock, waits)
    ensures Sum(waits) <= 1.099 * PlainTotal(c, |waits|)
  {
    forall i | 0 <= i < |waits| ensures waits[i] <= 1.099 * Base(c, i) {
      WaitBounds(c, i, clock[i], waits[i]);
    }
    SumAtMostPlain(c, waits);
  }

  lemma WaitBounds(c: Config, n: nat, nanos: nat, wait: real)
    requires Valid(c) && c.multiplier > 0.0 && n < 0x8000_0000 && Delay(c, n, nanos) == Some(wait)
    ensures 0.0 <= wait <= c.maxDelay && wait <= 1.099 * Base(c, n)
  {
    BaseNotNegative(c, n);
    DelayBounds(c, n, nanos);
  }

  lemma BaseNotNegative(c: Config, n: nat)
    requires Valid(c) && c.multiplier > 0.0 && n < 0x8000_0000
    ensures Base(c, n) >= 0.0
  {
    PowerPositive(c.multiplier, n);
    SignOfProduct(c.initialDelay, Power(c.multiplier, n));
  }
}
