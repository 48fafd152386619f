// shared/retry/retry.go: retrying an operation with capped exponential backoff.
// Durations are nanoseconds held in an int64, so doubling a wait can wrap around.
module Retry {
  import opened Options
  import opened Numbers

  datatype Config = Config(maxRetries: int, initialWait: int, maxWait: int)

  const DEFAULT_CONFIG := Config(3, 1_000_000_000, 10_000_000_000)

  datatype Outcome<+E> = Nil | Failed(error: E) | Cancelled

  // The value `wait` holds when retry `j` sleeps, in int64 arithmetic.
  function Wait(cfg: Config, j: nat): int
    requires j >= 1
  {
    if j == 1 then cfg.initialWait else Min(Wrap64(2 * Wait(cfg, j - 1)), cfg.maxWait)
  }

  // `operation(i)` is the error of call `i` (None is success); `done(j)` says that the
  // context is done while retry `j` waits.
  method WithBackoff<E>(cfg: Config, operation: nat -> Option<E>, done: nat -> bool)
    returns (result: Outcome<E>, calls: nat, sleeps: seq<int>)
    ensures calls <= if cfg.maxRetries < 0 then 0 else cfg.maxRetries + 1
    ensures cfg.maxRetries >= 0 ==> calls >= 1
    ensures forall i: nat :: i + 1 < calls ==> operation(i).Some?
    ensures forall j: nat :: 1 <= j < calls ==> !done(j)
    ensures result.Nil? ==> cfg.maxRetries < 0 || operation(calls - 1).None?
    ensures result.Failed? ==> calls == cfg.maxRetries + 1 >= 1 && operation(cfg.maxRetries) == Some(result.error)
    ensures result.Cancelled? ==> 1 <= calls <= cfg.maxRetries && done(calls) && operation(calls - 1).Some?
    ensures |sleeps| == (if calls == 0 then 0 else calls - 1)
    ensures forall j :: 0 <= j < |sleeps| ==> sleeps[j] == Wait(cfg, j + 1)
    // Without cancellation, nil means that some attempt in the budget succeeds, and conversely.
    ensures cfg.maxRetries >= 0 && (forall j: nat :: !done(j)) ==>
              (result.Nil? <==> exists i: nat :: i <= cfg.maxRetries && operation(i).None?)
  {
    var err: Option<E> := None;
    var wait := cfg.initialWait;
    calls, sleeps := 0, [];
    var attempt := 0;
    while attempt <= cfg.maxRetries
      invariant attempt == calls && attempt <= (if cfg.maxRetries < 0 then 0 else cfg.maxRetries + 1)
      invariant wait == Wait(cfg, if attempt <= 1 then 1 else attempt)
      invariant |sleeps| == (if attempt == 0 then 0 else attempt - 1)
      invariant forall j :: 0 <= j < |sleeps| ==> sleeps[j] == Wait(cfg, j + 1)
      invariant forall i: nat :: i < attempt ==> operation(i).Some?
      invariant forall j: nat :: 1 <= j < attempt ==> !done(j)
      invariant attempt == 0 ==> err == None
      invariant attempt > 0 ==> err == operation(attempt - 1)
    {
      if attempt > 0 {
        if done(attempt) {
          return Cancelled, calls, sleeps;
        }
        sleeps := sleeps + [wait];
        wait := Wrap64(wait * 2);
        if wait > cfg.maxWait {
          wait := cfg.maxWait;
        }
      }
      err := operation(attempt);
      calls := calls + 1;
      if err.None? {
        return Nil, calls, sleeps;
      }
      attempt := attempt + 1;
    }
    result := if err.None? then Nil else Failed(err.value);
  }

  // The default: four attempts in all, and one, two and four seconds between them.
  lemma DefaultSchedule()
    ensures DEFAULT_CONFIG.maxRetries + 1 == 4
    ensures Wait(DEFAULT_CONFIG, 1) == 1_000_000_000
    ensures Wait(DEFAULT_CONFIG, 2) == 2_000_000_000
    ensures Wait(DEFAULT_CONFIG, 3) == 4_000_000_000
  {
    var first := Wait(DEFAULT_CONFIG, 1);
    var second := Wait(DEFAULT_CONFIG, 2);
    assert Wrap64(2 * first) == 2_000_000_000 && Wrap64(2 * second) == 4_000_000_000;
  }

  // ---- The documented schedule ----

  function Pow2(n: nat): (r: nat)
    ensures r >= 1
  {
    if n == 0 then 1 else 2 * Pow2(n - 1)
  }

  // The schedule over unbounded integers.
  function IdealWait(cfg: Config, j: nat): int
    requires j >= 1
  {
    if j == 1 then cfg.initialWait else Min(2 * IdealWait(cfg, j - 1), cfg.maxWait)
  }

  // The closed form: double at every retry, never above the cap.
  function ClosedWait(cfg: Config, j: nat): int
    requires j >= 1
  {
    if j == 1 then cfg.initialWait else Min(cfg.initialWait * Pow2(j - 1), cfg.maxWait)
  }

  lemma {:induction false} CappedDoubling(cfg: Config, j: nat)
    requires j >= 1
    requires cfg.maxWait >= 0
    ensures IdealWait(cfg, j) == ClosedWait(cfg, j)
  {
    if j > 1 {
      CappedDoubling(cfg, j - 1);
      assert cfg.initialWait * Pow2(j - 1) == 2 * (cfg.initialWait * Pow2(j - 2));
    }
  }

  // ---- When the machine schedule meets the closed form ----

  predicate Int64(x: int) {
    -TWO_63 <= x < TWO_63
  }

  // What decides it can be read off the configuration. A cap that is not negative, or that the
  // first doubling of a negative wait undershoots: no wait that is doubled may leave
  // [-2^62, 2^62). Any other negative cap: it acts at once, and its own doubling must wrap around
  // and be capped again.
  predicate MeetsClosedForm(cfg: Config) {
    if cfg.maxRetries <= 1 then true
    else if cfg.maxWait >= 0 || (cfg.initialWait < 0 && 2 * cfg.initialWait <= cfg.maxWait) then
      forall j: nat :: 1 <= j < cfg.maxRetries ==> -TWO_62 <= ClosedWait(cfg, j) < TWO_62
    else if cfg.initialWait >= 0 then
      && (cfg.initialWait < TWO_62 || 2 * cfg.initialWait - TWO_64 >= cfg.maxWait)
      && (cfg.maxRetries == 2 || cfg.maxWait < -TWO_62)
    else
      cfg.maxRetries == 2
      || (cfg.maxWait < -TWO_62 && cfg.initialWait * Pow2(cfg.maxRetries - 1) >= cfg.maxWait)
  }

  ghost predicate Matches(cfg: Config, n: int) {
    forall j: nat :: 1 <= j <= n ==> Wait(cfg, j) == ClosedWait(cfg, j)
  }

  lemma {:induction false} WaitIsInt64(cfg: Config, j: nat)
    requires j >= 1 && Int64(cfg.initialWait) && Int64(cfg.maxWait)
    ensures Int64(Wait(cfg, j))
  {
    if j > 1 {
      WaitIsInt64(cfg, j - 1);
    }
  }

  // One doubling in int64 arithmetic is the ideal one exactly while it does not wrap.
  lemma DoublingIff(c: int, cap: int)
    requires Int64(c) && Int64(cap) && (cap >= 0 || c < 0)
    ensures Min(Wrap64(2 * c), cap) == Min(2 * c, cap) <==> -TWO_62 <= c < TWO_62
  {
    if c >= TWO_62 {
      assert Wrap64(2 * c) == 2 * c - TWO_64;
    } else if c < -TWO_62 {
      assert Int64(Min(Wrap64(2 * c), cap));
    }
  }

  // Where the cap never has to act twice, the closed form obeys the recurrence.
  lemma ClosedNext(cfg: Config, j: nat)
    requires j >= 1
    requires cfg.maxWait >= 0 || (cfg.initialWait < 0 && 2 * cfg.initialWait <= cfg.maxWait)
    ensures ClosedWait(cfg, j + 1) == Min(2 * ClosedWait(cfg, j), cfg.maxWait)
    ensures cfg.maxWait < 0 ==> ClosedWait(cfg, j) < 0
  {
    var x := cfg.initialWait * Pow2(j - 1);
    assert cfg.initialWait * Pow2(j) == 2 * x;
    if cfg.maxWait < 0 && j > 1 {
      assert Pow2(j - 1) == 2 * Pow2(j - 2) >= 2;
      assert x <= 2 * cfg.initialWait;
    }
  }

  lemma {:induction false} DoublingMatches(cfg: Config, n: nat)
    requires n >= 1 && Int64(cfg.initialWait) && Int64(cfg.maxWait)
    requires cfg.maxWait >= 0 || (cfg.initialWait < 0 && 2 * cfg.initialWait <= cfg.maxWait)
    ensures Matches(cfg, n) <==> forall j: nat :: 1 <= j < n ==> -TWO_62 <= ClosedWait(cfg, j) < TWO_62
  {
    if n == 1 {
      assert Wait(cfg, 1) == ClosedWait(cfg, 1);
    } else {
      DoublingMatches(cfg, n - 1);
      ClosedNext(cfg, n - 1);
      WaitIsInt64(cfg, n - 1);
      if Wait(cfg, n - 1) == ClosedWait(cfg, n - 1) {
        DoublingIff(Wait(cfg, n - 1), cfg.maxWait);
      }
      assert Matches(cfg, n) <==> Matches(cfg, n - 1) && Wait(cfg, n) == ClosedWait(cfg, n);
    }
  }

  // A negative cap that acts at the second retry: it stays exactly if its own doubling wraps.
  lemma {:induction false} CapStays(cfg: Config, n: nat)
    requires n >= 3 && -TWO_63 <= cfg.maxWait < 0 && Wait(cfg, 2) == cfg.maxWait
    ensures cfg.maxWait < -TWO_62 ==> Wait(cfg, n) == cfg.maxWait
    ensures cfg.maxWait >= -TWO_62 ==> Wait(cfg, 3) == 2 * cfg.maxWait
  {
    if cfg.maxWait < -TWO_62 {
      assert Wrap64(2 * cfg.maxWait) == 2 * cfg.maxWait + TWO_64;
      if n > 3 {
        CapStays(cfg, n - 1);
      }
    }
  }

  lemma {:induction false} Falls(x: int, i: nat, j: nat)
    requires x < 0 && i <= j
    ensures x * Pow2(j) <= x * Pow2(i)
    decreases j
  {
    if i < j {
      Falls(x, i, j - 1);
      assert x * Pow2(j) == 2 * (x * Pow2(j - 1));
      assert x * Pow2(j - 1) < 0;
    }
  }

  // A negative cap below a wait that is not negative: the closed form is the cap from then on.
  lemma PositiveStart(cfg: Config)
    requires cfg.maxRetries >= 2 && Int64(cfg.initialWait) && Int64(cfg.maxWait)
    requires cfg.maxWait < 0 <= cfg.initialWait
    ensures Matches(cfg, cfg.maxRetries) <==> MeetsClosedForm(cfg)
  {
    var n := cfg.maxRetries;
    assert forall j: nat :: 2 <= j ==> ClosedWait(cfg, j) == cfg.maxWait;
    assert Wait(cfg, 1) == cfg.initialWait;
    assert Wrap64(2 * cfg.initialWait)
        == if cfg.initialWait < TWO_62 then 2 * cfg.initialWait else 2 * cfg.initialWait - TWO_64;
    assert Matches(cfg, n) ==> Wait(cfg, 2) == ClosedWait(cfg, 2);
    assert Matches(cfg, n) && n >= 3 ==> Wait(cfg, 3) == ClosedWait(cfg, 3);
    if Wait(cfg, 2) == cfg.maxWait {
      forall j: nat | 3 <= j <= n ensures cfg.maxWait < -TWO_62 ==> Wait(cfg, j) == cfg.maxWait {
        CapStays(cfg, j);
      }
      CapStays(cfg, 3);
    }
  }

  // A negative cap that the first doubling of a negative wait does not reach.
  lemma NegativeStart(cfg: Config)
    requires cfg.maxRetries >= 2 && Int64(cfg.initialWait) && Int64(cfg.maxWait)
    requires cfg.initialWait < 0 && cfg.maxWait < 2 * cfg.initialWait
    ensures Matches(cfg, cfg.maxRetries) <==> MeetsClosedForm(cfg)
  {
    var n := cfg.maxRetries;
    assert Pow2(1) == 2 && Pow2(2) == 4 by { assert Pow2(0) == 1; }
    assert Wait(cfg, 1) == cfg.initialWait;
    assert Wait(cfg, 2) == cfg.maxWait == ClosedWait(cfg, 2);
    assert Matches(cfg, n) && n >= 3 ==> Wait(cfg, 3) == ClosedWait(cfg, 3);
    assert Matches(cfg, n) ==> Wait(cfg, n) == ClosedWait(cfg, n);
    CapStays(cfg, 3);
    forall j: nat | 3 <= j <= n
      ensures cfg.maxWait < -TWO_62 ==> Wait(cfg, j) == cfg.maxWait
      ensures cfg.initialWait * Pow2(n - 1) <= cfg.initialWait * Pow2(j - 1)
    {
      CapStays(cfg, j);
      Falls(cfg.initialWait, j - 1, n - 1);
    }
  }

  // For every int64 configuration: the sleeps of the loop are the capped powers at every retry if
  // and only if the configuration meets the condition above.
  lemma ClosedFormIff(cfg: Config)
    requires Int64(cfg.initialWait) && Int64(cfg.maxWait)
    ensures (forall j: nat :: 1 <= j <= cfg.maxRetries ==> Wait(cfg, j) == ClosedWait(cfg, j)) <==>
            MeetsClosedForm(cfg)
  {
    if cfg.maxRetries <= 1 {
      assert Wait(cfg, 1) == ClosedWait(cfg, 1);
    } else if cfg.maxWait >= 0 || (cfg.initialWait < 0 && 2 * cfg.initialWait <= cfg.maxWait) {
      DoublingMatches(cfg, cfg.maxRetries);
    } else if cfg.initialWait >= 0 {
      PositiveStart(cfg);
    } else {
      NegativeStart(cfg);
    }
  }

  // For bounds that are not negative: exactly while no wait that is doubled reaches 2^62.
  lemma NonNegativeIff(cfg: Config)
    requires 0 <= cfg.initialWait < TWO_63 && 0 <= cfg.maxWait < TWO_63
    ensures (forall j: nat :: 1 <= j <= cfg.maxRetries ==> Wait(cfg, j) == ClosedWait(cfg, j)) <==>
            forall j: nat :: 1 <= j < cfg.maxRetries ==> ClosedWait(cfg, j) < TWO_62
  {
    ClosedFormIff(cfg);
    assert forall j: nat :: 1 <= j ==> ClosedWait(cfg, j) >= 0;
  }

  // No doubling wraps when both bounds are non-negative and below 2^62.
  lemma {:induction false} NoOverflow(cfg: Config, j: nat)
    requires j >= 1
    requires 0 <= cfg.initialWait < TWO_62 && 0 <= cfg.maxWait < TWO_62
    ensures Wait(cfg, j) == IdealWait(cfg, j) == ClosedWait(cfg, j)
    ensures 0 <= Wait(cfg, j) < TWO_62
  {
    CappedDoubling(cfg, j);
    if j > 1 {
      NoOverflow(cfg, j - 1);
    }
  }

  // At 2^62 the bound is sharp: the first doubling wraps to the most negative duration.
  lemma OverflowAtBound()
    ensures Wait(Config(2, TWO_62, TWO_63 - 1), 2) == -TWO_63
  {
    var cfg := Config(2, TWO_62, TWO_63 - 1);
    assert Wait(cfg, 1) == TWO_62;
  }

  function TotalWait(cfg: Config, n: nat): int {
    if n == 0 then 0 else TotalWait(cfg, n - 1) + Wait(cfg, n)
  }

  // All retries together sleep at most one initial wait and the cap for each further retry.
  lemma {:induction false} TotalWaitBound(cfg: Config, n: nat)
    requires n >= 1
    ensures TotalWait(cfg, n) <= cfg.initialWait + (n - 1) * cfg.maxWait
  {
    if n > 1 {
      TotalWaitBound(cfg, n - 1);
      assert (n - 1) * cfg.maxWait == (n - 2) * cfg.maxWait + cfg.maxWait;
    } else {
      assert TotalWait(cfg, 0) == 0;
    }
  }
}
