/** The writer's retry loop: how often it tries, how long it sleeps, what it answers. */
module Writer {
  import opened Lists

  const U64_MAX: nat := 0xFFFF_FFFF_FFFF_FFFF
  const U32_MAX: nat := 0xFFFF_FFFF

  /** One backend call: stored, source not found, or any other error. */
  datatype Outcome = Stored | NotFound | Failed

  datatype Result = Done | SourceDisappeared | GaveUp

  function Pow2(n: nat): (r: nat)
    ensures r > 0
  {
    if n == 0 then 1 else 2 * Pow2(n - 1)
  }

  /** The pause after the given failed attempt, with the source's saturating multiplication. */
  function BackoffMs(base: nat, attempt: nat): nat {
    Least(base * Pow2(Least(attempt, 6)), U64_MAX)
  }

  /** All pauses after the first n failed attempts. */
  function TotalBackoff(base: nat, n: nat): nat {
    if n == 0 then 0 else TotalBackoff(base, n - 1) + BackoffMs(base, n)
  }

  /** The same in closed form, without saturation. */
  function BackoffBound(base: nat, n: nat): int {
    if n <= 6 then base * (Pow2(n + 1) - 2) else base * (126 + 64 * (n - 6))
  }

  lemma PowersOfTwo()
    ensures Pow2(1) == 2 && Pow2(2) == 4 && Pow2(3) == 8 && Pow2(4) == 16
    ensures Pow2(5) == 32 && Pow2(6) == 64 && Pow2(7) == 128
  {
    assert Pow2(3) == 8;
    assert Pow2(5) == 32;
  }

  lemma BoundStep(base: nat, n: nat)
    requires n > 0
    ensures BackoffBound(base, n) == BackoffBound(base, n - 1) + base * Pow2(Least(n, 6))
  {
    PowersOfTwo();
    if n <= 6 {
      Distribute(base, Pow2(n) - 2, Pow2(n));
    } else {
      Distribute(base, 126 + 64 * (n - 7), 64);
    }
  }

  lemma Distribute(a: nat, b: int, c: int)
    ensures a * (b + c) == a * b + a * c
  {
  }

  /** The pauses sum to the closed form when nothing saturates; saturation only shortens them. */
  lemma {:induction false} TotalBackoffBound(base: nat, n: nat)
    ensures TotalBackoff(base, n) <= BackoffBound(base, n)
    ensures base * 64 <= U64_MAX ==> TotalBackoff(base, n) == BackoffBound(base, n)
  {
    PowersOfTwo();
    if n > 0 {
      TotalBackoffBound(base, n - 1);
      BoundStep(base, n);
      if base * 64 <= U64_MAX {
        SmallPower(base, Least(n, 6));
      }
    }
  }

  lemma SmallPower(base: nat, k: nat)
    requires k <= 6
    ensures base * Pow2(k) <= base * 64
  {
    PowersOfTwo();
    assert Pow2(k) <= 64;
    assert base * (64 - Pow2(k)) >= 0;
    Distribute(base, Pow2(k), 64 - Pow2(k));
  }

  lemma {:induction false} BoundGrows(base: nat, m: nat, n: nat)
    requires m <= n
    ensures BackoffBound(base, m) <= BackoffBound(base, n)
    decreases n - m
  {
    if m < n {
      BoundGrows(base, m, n - 1);
      BoundStep(base, n);
    }
  }

  /**
   * The pause after failed attempt k doubles from twice the base up to the sixth, and is then
   * always the same; where that does not fit it is the greatest number there is.
   */
  lemma PausesDouble(base: nat, k: nat)
    requires k > 0 && base <= U64_MAX
    ensures k == 1 ==> BackoffMs(base, k) == Least(2 * base, U64_MAX)
    ensures k < 6 && 2 * BackoffMs(base, k) <= U64_MAX ==> BackoffMs(base, k + 1) == 2 * BackoffMs(base, k)
    ensures k < 6 && 2 * BackoffMs(base, k) > U64_MAX ==> BackoffMs(base, k + 1) == U64_MAX
    ensures k >= 6 ==> BackoffMs(base, k + 1) == BackoffMs(base, 6)
  {
    PowersOfTwo();
    if k < 6 {
      var p := Pow2(k);
      assert Pow2(k + 1) == 2 * p;
      assert base * (2 * p) == 2 * (base * p);
    }
  }

  /** Attempt i is the one that settles the job: the first not to fail, or the last allowed. */
  predicate Settles(outcomes: nat -> Outcome, retries: nat, i: nat) {
    && i <= retries
    && (forall k :: 0 <= k < i ==> outcomes(k) == Failed)
    && (outcomes(i) != Failed || i == retries)
  }

  /**
   * process_writer_job: tries until something other than a failure or retries + 1 times,
   * pausing between tries; only giving up removes the source here.
   */
  method ProcessWriterJob(outcomes: nat -> Outcome, retries: nat, baseMs: nat)
    returns (result: Result, attempts: nat, sleptMs: nat, sourceRemoved: bool)
    requires retries < U32_MAX && baseMs <= U64_MAX
    ensures 1 <= attempts <= retries + 1 && Settles(outcomes, retries, attempts - 1)
    ensures result == match outcomes(attempts - 1)
                      case Stored => Done
                      case NotFound => SourceDisappeared
                      case Failed => GaveUp
    ensures sourceRemoved <==> forall k :: 0 <= k <= retries ==> outcomes(k) == Failed
    ensures sleptMs == TotalBackoff(baseMs, attempts - 1)
    ensures sleptMs <= BackoffBound(baseMs, retries)
  {
    var attempt := 0;
    var maxAttempts := retries + 1;
    sleptMs, attempts, sourceRemoved := 0, 0, false;
    while true
      invariant 0 <= attempt == attempts <= retries
      invariant forall k :: 0 <= k < attempt ==> outcomes(k) == Failed
      invariant sleptMs == TotalBackoff(baseMs, attempt)
      invariant !sourceRemoved
      decreases retries - attempt
    {
      TotalBackoffBound(baseMs, attempt);
      BoundGrows(baseMs, attempt, retries);
      var res := outcomes(attempt);
      attempts := attempts + 1;
      match res
      case Stored =>
        result := Done;
        return;
      case NotFound =>
        result := SourceDisappeared;
        return;
      case Failed =>
        attempt := attempt + 1;
        if attempt >= maxAttempts {
          sourceRemoved, result := true, GaveUp;
          return;
        }
        sleptMs := sleptMs + BackoffMs(baseMs, attempt);
    }
  }
}
