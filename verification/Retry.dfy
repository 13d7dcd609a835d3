/** Retry policy and backoff (pkg/sdk/temporal/retry.go), with the server's
    finite attempt bound (pkg/tasks/durable.go). Durations are nanoseconds;
    the backoff product is computed over the reals and truncated at the end. */
module Retry {
  import opened Basics

  const SECOND := 1_000_000_000
  const MILLISECOND := 1_000_000

  /** Attempts granted when the caller's policy leaves the bound unset. */
  const DEFAULT_MAX_ATTEMPTS := 10

  datatype Policy = Policy(
    initial: int,
    coefficient: real,
    maximum: int,
    maxAttempts: int,
    nonRetryable: seq<string>)

  /** The wire form of a policy: intervals in milliseconds. */
  datatype WirePolicy = WirePolicy(
    initialMs: int,
    coefficient: real,
    maximumMs: int,
    maxAttempts: int,
    nonRetryable: seq<string>)

  datatype Failure = Failure(message: string, code: string, nonRetryable: bool)

  const DEFAULT := Policy(SECOND, 2.0, 100 * SECOND, 0, [])

  function Normalize(p: Option<Policy>): (out: Policy)
    ensures out.initial > 0 && out.maximum > 0
    ensures out.coefficient >= 1.0 && out.maxAttempts >= 0
    ensures p.Some? && p.value.initial > 0 && p.value.coefficient >= 1.0 && p.value.maximum > 0
            && p.value.maxAttempts >= 0
            ==> out == p.value
  {
    if p.None? then DEFAULT else
    var q := p.value;
    var initial := if q.initial <= 0 then DEFAULT.initial else q.initial;
    Policy(
      initial,
      if q.coefficient < 1.0 then DEFAULT.coefficient else q.coefficient,
      if q.maximum <= 0 then 100 * initial else q.maximum,
      if q.maxAttempts < 0 then 0 else q.maxAttempts,
      q.nonRetryable)
  }

  /** The policy the server applies to a stored activity: normalised, and never
      unlimited. */
  function Effective(w: Option<WirePolicy>): (out: Policy)
    ensures out.maxAttempts > 0
    ensures w.None? || w.value.maxAttempts <= 0 ==> out.maxAttempts == DEFAULT_MAX_ATTEMPTS
    ensures w.Some? && w.value.maxAttempts > 0 ==> out.maxAttempts == w.value.maxAttempts
    ensures Normalize(Some(out)) == out
  {
    var p := match w
      case None => Policy(0, 0.0, 0, 0, [])
      case Some(q) => Policy(q.initialMs * MILLISECOND, q.coefficient, q.maximumMs * MILLISECOND, q.maxAttempts,
          q.nonRetryable);
    var n := Normalize(Some(p));
    if n.maxAttempts <= 0 then n.(maxAttempts := DEFAULT_MAX_ATTEMPTS) else n
  }

  /** What the retry decision amounts to, independently of how it is searched. */
  predicate Retries(p: Policy, f: Failure, attempt: int)
  {
    var eff := Normalize(Some(p));
    && (eff.maxAttempts == 0 || attempt < eff.maxAttempts)
    && !f.nonRetryable
    && f.code !in eff.nonRetryable
  }

  method ShouldRetry(p: Policy, f: Failure, attempt: int) returns (again: bool)
    ensures again <==> Retries(p, f, attempt)
  {
    var eff := Normalize(Some(p));
    if eff.maxAttempts > 0 && attempt >= eff.maxAttempts {
      return false;
    }
    if f.nonRetryable {
      return false;
    }
    for i := 0 to |eff.nonRetryable|
      invariant f.code !in eff.nonRetryable[..i]
    {
      if eff.nonRetryable[i] == f.code {
        return false;
      }
    }
    again := true;
  }

  function Power(c: real, n: nat): real
  {
    if n == 0 then 1.0 else Power(c, n - 1) * c
  }

  function Min(a: real, b: real): real { if a <= b then a else b }

  /** `first` after n multiplications by `c`. */
  function Grown(first: real, c: real, n: nat): real
  {
    if n == 0 then first else Grown(first, c, n - 1) * c
  }

  function Capped(p: Policy, n: nat): int
  {
    Min(Grown(p.initial as real, p.coefficient, n), p.maximum as real).Floor
  }

  /** The delay before retry `attempt`: the initial interval for the first, and
      the capped exponential from the second on. */
  function Delay(p: Policy, attempt: int): int
  {
    var eff := Normalize(Some(p));
    if attempt <= 1 then eff.initial else Capped(eff, attempt - 1)
  }

  /** Grown is the closed form initial * coefficient^n. */
  lemma {:induction false} GrownIsProduct(first: real, c: real, n: nat)
    ensures Grown(first, c, n) == first * Power(c, n)
  {
    if n > 0 {
      GrownIsProduct(first, c, n - 1);
      assert first * Power(c, n - 1) * c == first * (Power(c, n - 1) * c);
    }
  }

  /** The delay before any retry under any policy: the initial interval grown n - 1
      times, up to the maximum, rounded down, where one second, two and a hundred
      times the initial interval stand for what is not given; the first is not cut. */
  lemma {:induction false} DelayLaw(p: Policy, n: nat, first: int, c: real, cap: int)
    requires n >= 1 && first == (if p.initial > 0 then p.initial else 1_000_000_000)
    requires c == (if p.coefficient >= 1.0 then p.coefficient else 2.0)
    requires cap == if p.maximum > 0 then p.maximum else 100 * first
    ensures var grown := Grown(first as real, c, n - 1);
            Delay(p, n) == if n == 1 then first else if grown <= cap as real then grown.Floor else cap
  {
    CutAt(Grown(first as real, c, n - 1), cap);
  }

  lemma CutAt(grown: real, cap: int)
    ensures Min(grown, cap as real).Floor == if grown <= cap as real then grown.Floor else cap
  {
  }

  lemma {:induction false} GrownGrows(first: real, c: real, m: nat, n: nat)
    requires first >= 0.0 && c >= 1.0 && m <= n
    ensures first <= Grown(first, c, m) <= Grown(first, c, n)
  {
    if n > 0 {
      GrownGrows(first, c, if m == n then m - 1 else m, n - 1);
      AtLeastItself(Grown(first, c, n - 1), c);
    }
  }

  lemma AtLeastItself(x: real, c: real)
    requires x >= 0.0 && c >= 1.0
    ensures x <= x * c
  {
    assert x * c - x == x * (c - 1.0);
  }

  lemma FloorOrder(a: real, b: real)
    requires a <= b
    ensures a.Floor <= b.Floor
  {
  }

  lemma StaysCut(first: int, c: real, cap: int, m: nat, n: nat)
    requires first > 0 && c >= 1.0 && m <= n && Grown(first as real, c, m) >= cap as real
    ensures Min(Grown(first as real, c, n), cap as real).Floor == cap
  {
    GrownGrows(first as real, c, m, n);
  }

  /** The loop that stops as soon as the cap is reached computes the capped
      exponential: every later product would be capped too. */
  method NextInterval(p: Policy, attempt: int) returns (delay: int)
    ensures delay == Delay(p, attempt)
  {
    var eff := Normalize(Some(p));
    var n := if attempt < 1 then 1 else attempt;
    delay := CappedProduct(eff.initial, eff.coefficient, eff.maximum, n);
  }

  method CappedProduct(initial: int, c: real, maximum: int, n: int) returns (delay: int)
    requires initial > 0 && c >= 1.0 && n >= 1
    ensures n == 1 ==> delay == initial
    ensures n > 1 ==> delay == Min(Grown(initial as real, c, n - 1), maximum as real).Floor
  {
    var interval := initial as real;
    for i := 1 to n
      invariant interval == Grown(initial as real, c, i - 1)
      invariant i > 1 ==> interval < maximum as real
    {
      interval := interval * c;
      if interval >= maximum as real {
        StaysCut(initial, c, maximum, i, n - 1);
        return maximum;
      }
    }
    delay := interval.Floor;
  }

  /** From the second retry on, delays never shrink and never pass the cap. */
  lemma DelayIsMonotoneAndCapped(p: Policy, m: int, n: int)
    requires 2 <= m <= n
    ensures Delay(p, m) <= Delay(p, n) <= Normalize(Some(p)).maximum
  {
    CappedGrows(Normalize(Some(p)), m - 1, n - 1);
  }

  lemma CappedGrows(p: Policy, m: nat, n: nat)
    requires p.initial >= 0 && p.coefficient >= 1.0 && m <= n
    ensures Capped(p, m) <= Capped(p, n) <= p.maximum
  {
    GrownGrows(p.initial as real, p.coefficient, m, n);
    CappedOrder(Grown(p.initial as real, p.coefficient, m), Grown(p.initial as real, p.coefficient, n),
        p.maximum as real);
  }

  lemma CappedOrder(a: real, b: real, cap: real)
    requires a <= b
    ensures Min(a, cap).Floor <= Min(b, cap).Floor <= cap.Floor
  {
    FloorOrder(Min(a, cap), Min(b, cap));
    FloorOrder(Min(b, cap), cap);
  }

  /** The first delay is not clamped, so the sequence starts in order exactly
      when the initial interval is within the cap. */
  lemma FirstDelayInOrder(p: Policy)
    ensures Delay(p, 1) <= Delay(p, 2) <==> Normalize(Some(p)).initial <= Normalize(Some(p)).maximum
  {
    var eff := Normalize(Some(p));
    var first, cap := eff.initial as real, eff.maximum as real;
    var second := Grown(first, eff.coefficient, 1);
    GrownGrows(first, eff.coefficient, 0, 1);
    FloorOrder(Min(second, cap), cap);
    if first <= cap {
      FloorOrder(first, Min(second, cap));
    }
  }
}
