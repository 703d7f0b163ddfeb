/** The wait before a failed attempt is tried again: base * attempt^4, capped, with jitter. The draw is a
  parameter; arithmetic is exact. */
module Backoff {

  datatype Jitter = NoJitter | EqualJitter | FullJitter

  datatype Backoff = Backoff(base: int, max: int, jitter: Jitter)

  function Quartic(n: int): int {
    n * n * n * n
  }

  /** The wait without jitter. */
  function Raw(b: Backoff, attempt: int): int {
    var window := b.base * Quartic(if attempt < 1 then 1 else attempt);
    if window > b.max then b.max else window
  }

  function Scaled(draw: real, window: int): int {
    (draw * window as real).Floor
  }

  function For(b: Backoff, attempt: int, draw: real): int {
    var raw := Raw(b, attempt);
    match b.jitter
    case NoJitter => raw
    case EqualJitter => raw / 2 + Scaled(draw, raw / 2)
    case FullJitter => Scaled(draw, raw)
  }

  predicate Valid(b: Backoff) {
    b.base > 0 && b.max >= 0
  }

  lemma QuarticGrows(m: int, n: int)
    requires 1 <= m <= n
    ensures m <= Quartic(m) <= Quartic(n)
  {
    Times(m, m, n, n);
    Times(m * m, m, n * n, n);
    Times(m * m * m, m, n * n * n, n);
    Times(1, m, m, m);
    Times(1, m, m * m, m);
    Times(1, m, m * m * m, m);
  }

  lemma Times(a: int, b: int, c: int, d: int)
    requires 0 <= a <= c && 0 <= b <= d
    ensures a * b <= c * d
  {
    assert a * b <= c * b <= c * d;
  }

  /** Later attempts wait no less, nobody waits longer than the cap, and the cap is reached. */
  lemma RawBounds(b: Backoff, m: int, n: int)
    requires Valid(b) && m <= n
    ensures 0 <= Raw(b, m) <= Raw(b, n) <= b.max
    ensures m <= 1 ==> Raw(b, m) == Raw(b, 1)
    ensures n >= b.max && n >= 1 ==> Raw(b, n) == b.max
  {
    var p, q := if m < 1 then 1 else m, if n < 1 then 1 else n;
    QuarticGrows(p, q);
    QuarticGrows(q, q);
    Times(b.base, Quartic(p), b.base, Quartic(q));
    Times(1, Quartic(q), b.base, Quartic(q));
  }

  /** n to the k-th power. */
  function Power(n: int, k: nat): int {
    if k == 0 then 1 else n * Power(n, k - 1)
  }

  /** The wait without jitter is the base times the fourth power of the attempt, counted from one, below the cap. */
  lemma RawIsFourthPower(b: Backoff, attempt: int)
    ensures var n := if attempt < 1 then 1 else attempt;
      Raw(b, attempt) == if b.base * Power(n, 4) > b.max then b.max else b.base * Power(n, 4)
  {
    var n := if attempt < 1 then 1 else attempt;
    assert Power(n, 1) == n * Power(n, 0) == n;
    assert Power(n, 3) == n * Power(n, 2) == n * (n * Power(n, 1));
    assert Power(n, 4) == n * Power(n, 3) == n * (n * (n * n)) == Quartic(n);
  }

  lemma ScaledWithin(draw: real, window: int)
    requires 0.0 <= draw < 1.0 && window >= 0
    ensures 0 <= Scaled(draw, window) <= window
    ensures window > 0 ==> Scaled(draw, window) < window
  {
    Share(draw, window as real);
    FloorWithin(draw * window as real, window);
  }

  lemma FloorWithin(x: real, n: int)
    requires 0.0 <= x <= n as real
    ensures 0 <= x.Floor <= n
    ensures x < n as real ==> x.Floor < n
  {
  }

  lemma Share(draw: real, whole: real)
    requires 0.0 <= draw < 1.0 && whole >= 0.0
    ensures 0.0 <= draw * whole <= whole
    ensures whole > 0.0 ==> draw * whole < whole
  {
    assert draw * whole >= 0.0;
    assert (1.0 - draw) * whole >= 0.0;
    if whole > 0.0 { assert (1.0 - draw) * whole > 0.0; }
    assert draw * whole == whole - (1.0 - draw) * whole;
  }

  /** Where a wait can fall: the bounds of each jitter. */
  lemma JitterBounds(b: Backoff, attempt: int, draw: real)
    requires Valid(b) && 0.0 <= draw < 1.0
    ensures var raw, wait := Raw(b, attempt), For(b, attempt, draw);
      && (b.jitter.NoJitter? ==> wait == raw)
      && (b.jitter.EqualJitter? ==> raw / 2 <= wait <= raw)
      && (b.jitter.FullJitter? ==> 0 <= wait <= raw && (raw > 0 ==> wait < raw))
      && 0 <= wait <= b.max
  {
    RawBounds(b, attempt, attempt);
    ScaledWithin(draw, Raw(b, attempt));
    ScaledWithin(draw, Raw(b, attempt) / 2);
  }

  /** And the whole of it is used: some draw gives every wait below the window. */
  lemma FullJitterReaches(b: Backoff, attempt: int, wait: int) returns (draw: real)
    requires Valid(b) && b.jitter.FullJitter? && 0 <= wait < Raw(b, attempt)
    ensures 0.0 <= draw < 1.0 && For(b, attempt, draw) == wait
  {
    var raw := Raw(b, attempt) as real;
    draw := wait as real / raw;
    assert draw * raw == wait as real;
  }

  /** Equal jitter too: some draw gives every wait of its upper half. */
  lemma EqualJitterReaches(b: Backoff, attempt: int, wait: int) returns (draw: real)
    requires Valid(b) && b.jitter.EqualJitter? && Raw(b, attempt) / 2 <= wait < Raw(b, attempt) / 2 * 2
    ensures 0.0 <= draw < 1.0 && For(b, attempt, draw) == wait
  {
    var half := Raw(b, attempt) / 2;
    draw := (wait - half) as real / half as real;
    assert draw * half as real == (wait - half) as real;
  }
}
