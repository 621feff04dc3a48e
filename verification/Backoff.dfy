/** The retry delay of runs and tasks: doubling up to a maximum, then a jitter taken from a hash byte. */
module Backoff {
  import opened Common

  const INT64_MAX: int := 0x7FFF_FFFF_FFFF_FFFF

  function Pow2(n: nat): (r: nat)
    ensures r > 0
  {
    if n == 0 then 1 else 2 * Pow2(n - 1)
  }

  /** The intended delay before the attempt after the given one. */
  function Capped(base: nat, maximum: nat, attempt: nat): nat
    requires attempt >= 1
  {
    Min(base * Pow2(attempt - 1), maximum)
  }

  predicate Fits(x: int) {
    -INT64_MAX - 1 <= x <= INT64_MAX
  }

  function Jitter(hashByte: bv8): int {
    800 + hashByte as int * 400 / 255
  }

  lemma {:induction false} PowGrows(base: nat, m: nat, n: nat)
    requires m <= n
    ensures base * Pow2(m) <= base * Pow2(n)
    decreases n - m
  {
    if m < n {
      PowGrows(base, m, n - 1);
      assert base * Pow2(n) == 2 * (base * Pow2(n - 1));
    }
  }

  /**
   The loop of retryDelay, with every int64 operation checked for overflow. A base above the maximum is
   returned as it is: the loop never runs.
   */
  method RetryDelay(base: nat, maximum: nat, attempt: nat, hashByte: bv8) returns (delay: int, unjittered: nat)
    requires attempt >= 1 && base <= INT64_MAX / 1200 && maximum <= INT64_MAX / 1200
    ensures unjittered == Capped(base, maximum, attempt) <==> base <= maximum
    ensures base > maximum ==> unjittered == base
    ensures delay == unjittered * (800 + hashByte as int * 400 / 255) / 1000
    ensures unjittered * 4 / 5 <= delay <= unjittered * 6 / 5
  {
    unjittered := base;
    var k := 1;
    while k < attempt && unjittered < maximum
      invariant 1 <= k <= attempt
      invariant base > maximum ==> unjittered == base
      invariant base <= maximum ==> unjittered == Min(base * Pow2(k - 1), maximum)
    {
      Doubled(base, k);
      assert Fits(unjittered * 2);
      unjittered := unjittered * 2;
      if unjittered > maximum {
        unjittered := maximum;
      }
      k := k + 1;
    }
    PowGrows(base, k - 1, attempt - 1);
    PowGrows(base, 0, attempt - 1);
    assert unjittered == Capped(base, maximum, attempt) <==> base <= maximum;
    JitterRange(hashByte);
    Product(unjittered, Jitter(hashByte));
    hide Capped, Pow2, Jitter;
    assert Fits(unjittered * Jitter(hashByte));
    delay := unjittered * Jitter(hashByte) / 1000;
  }

  lemma Doubled(base: nat, k: nat)
    requires k >= 1
    ensures base * Pow2(k) == 2 * (base * Pow2(k - 1))
  {
  }

  lemma JitterRange(hashByte: bv8)
    ensures 800 <= Jitter(hashByte) <= 1200
  {
  }

  lemma Scaled(n: nat, low: nat, jitter: nat, high: nat)
    requires low <= jitter <= high
    ensures n * low <= n * jitter <= n * high
  {
  }

  lemma Product(n: nat, jitter: int)
    requires n <= INT64_MAX / 1200 && 800 <= jitter <= 1200
    ensures 0 <= n * jitter <= INT64_MAX
    ensures n * 4 / 5 <= n * jitter / 1000 <= n * 6 / 5
  {
    Scaled(n, 800, jitter, 1200);
    Quotients(n, n * jitter);
  }

  lemma Quotients(n: nat, product: int)
    requires n * 800 <= product <= n * 1200
    ensures n * 4 / 5 <= product / 1000 <= n * 6 / 5
  {
  }

  /** A later attempt never waits less, before the jitter. */
  lemma CappedGrows(base: nat, maximum: nat, a: nat, b: nat)
    requires 1 <= a <= b
    ensures Capped(base, maximum, a) <= Capped(base, maximum, b) <= maximum
  {
    PowGrows(base, a - 1, b - 1);
  }

  /** The bound on the maximum is the exact one: at the next value the largest jitter overflows. */
  lemma OverflowBound(maximum: nat)
    ensures (forall b: bv8 :: Fits(maximum * Jitter(b))) <==> maximum <= INT64_MAX / 1200
  {
    if maximum <= INT64_MAX / 1200 {
      forall b: bv8 ensures Fits(maximum * Jitter(b)) {
        JitterRange(b);
        Product(maximum, Jitter(b));
      }
    } else {
      assert Jitter(255) == 1200;
      assert !Fits(maximum * Jitter(255));
    }
  }
}
