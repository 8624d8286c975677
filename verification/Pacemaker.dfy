/** pacemaker.go: the view timeout and its exponential backoff. */
module Pacemaker {
  import opened Types

  /** Durations in nanoseconds; the backoff multiplier is the fraction num/den. */
  datatype Config = Config(timeoutPropose: int, timeoutVote: int, timeoutCommit: int, minBlockTime: int,
                           minBlockTimeSkew: int, num: nat, den: nat, maxTimeout: int)

  datatype Field =
    TimeoutPropose | TimeoutVote | TimeoutCommit | MinBlockTime | MinBlockTimeSkew | BackoffMultiplier | MaxTimeout

  /** The configurations that make sense. */
  predicate Sensible(c: Config) {
    && 0 < c.timeoutPropose <= c.maxTimeout && 0 < c.timeoutVote && 0 <= c.timeoutCommit && 0 <= c.minBlockTime
    && (c.minBlockTime > 0 ==> 0 <= c.minBlockTimeSkew < c.minBlockTime)
    && c.num >= c.den
  }

  /** The field is one of those that make a configuration senseless. */
  predicate OutOfRange(c: Config, field: Field) {
    match field
    case TimeoutPropose => c.timeoutPropose <= 0
    case TimeoutVote => c.timeoutVote <= 0
    case TimeoutCommit => c.timeoutCommit < 0
    case MinBlockTime => c.minBlockTime < 0
    case MinBlockTimeSkew => c.minBlockTime > 0 && !(0 <= c.minBlockTimeSkew < c.minBlockTime)
    case BackoffMultiplier => c.num < c.den
    case MaxTimeout => c.maxTimeout < c.timeoutPropose
  }

  /** PacemakerConfig.Validate: no error exactly for sensible configurations; an error names a field
      that is out of range, and the order of the checks decides which. */
  function Validate(c: Config): (r: Option<Field>)
    ensures r.None? <==> Sensible(c)
    ensures r == Some(TimeoutPropose) <==> c.timeoutPropose <= 0
    ensures r.Some? ==> OutOfRange(c, r.value)
  {
    if c.timeoutPropose <= 0 then Some(TimeoutPropose)
    else if c.timeoutVote <= 0 then Some(TimeoutVote)
    else if c.timeoutCommit < 0 then Some(TimeoutCommit)
    else if c.minBlockTime < 0 then Some(MinBlockTime)
    else if c.minBlockTime > 0 && c.minBlockTimeSkew < 0 then Some(MinBlockTimeSkew)
    else if c.minBlockTime > 0 && c.minBlockTimeSkew >= c.minBlockTime then Some(MinBlockTimeSkew)
    else if c.num < c.den then Some(BackoffMultiplier)
    else if c.maxTimeout <= 0 then Some(MaxTimeout)
    else if c.maxTimeout < c.timeoutPropose then Some(MaxTimeout)
    else None
  }

  /** A validated configuration, its multiplier a proper fraction. */
  predicate Good(c: Config) { c.den > 0 && Validate(c).None? }

  // ---- Backoff ----

  /** One increase: the product truncated to whole nanoseconds, capped. */
  function Raised(c: Config, timeout: nat): nat
    requires Good(c)
  {
    var product := timeout * c.num / c.den;
    if product > c.maxTimeout then c.maxTimeout else product
  }

  /** The timeout after k increases since the last reset. */
  function Backoff(c: Config, k: nat): nat
    requires Good(c)
  {
    if k == 0 then c.timeoutPropose else Raised(c, Backoff(c, k - 1))
  }

  lemma Monotone(a: int, b: int, m: nat)
    ensures a <= b ==> a * m <= b * m
    ensures a < b ==> (a + 1) * m <= b * m
  {
    assert b * m == a * m + (b - a) * m;
    assert b * m == (a + 1) * m + (b - a - 1) * m;
    NotNegative(b - a, m);
    NotNegative(b - a - 1, m);
  }

  lemma NotNegative(x: int, m: nat)
    ensures x >= 0 ==> x * m >= 0
  {}

  /** A truncated quotient is at least m exactly when the dividend reaches m times the divisor. */
  lemma QuotientAtLeast(p: nat, den: nat, m: nat)
    requires den > 0
    ensures p / den >= m <==> m * den <= p
  {
    var q := p / den;
    assert q * den <= p < (q + 1) * den;
    Monotone(m, q, den);
    Monotone(q, m, den);
  }

  lemma ProductGrows(x: nat, num: nat, den: nat)
    requires num >= den > 0
    ensures x * num / den >= x
    ensures den * (x * num / den) >= num * x - (den - 1)
    ensures x * num / den > x <==> x * (num - den) >= den
  {
    QuotientAtLeast(x * num, den, x);
    QuotientAtLeast(x * num, den, x + 1);
    assert x * num == x * den + x * (num - den);
    assert x * (num - den) >= 0;
  }

  /** The timeout stays between its base and the cap, and never falls until a reset. */
  lemma {:induction false} BackoffBounds(c: Config, k: nat)
    requires Good(c)
    ensures c.timeoutPropose <= Backoff(c, k) <= c.maxTimeout
    ensures Backoff(c, k) <= Backoff(c, k + 1)
  {
    if k > 0 { BackoffBounds(c, k - 1); }
    ProductGrows(Backoff(c, k), c.num, c.den);
  }

  function Power(b: nat, k: nat): nat { if k == 0 then 1 else b * Power(b, k - 1) }

  /** Exponential growth: unless the cap is reached, after k increases the timeout has grown by a
      factor (num/den)^k, up to the truncation of each step. For the default 3/2 this reads
      2^k * (x_k - 1) >= 3^k * (x_0 - 1). */
  lemma {:induction false} GrowsExponentially(c: Config, k: nat)
    requires Good(c)
    ensures Backoff(c, k) == c.maxTimeout ||
            Power(c.den, k) * ((c.num - c.den) * Backoff(c, k) - (c.den - 1))
            >= Power(c.num, k) * ((c.num - c.den) * c.timeoutPropose - (c.den - 1))
  {
    if k > 0 {
      GrowsExponentially(c, k - 1);
      BackoffBounds(c, k - 1);
      var x, y, d := Backoff(c, k - 1), Backoff(c, k), c.num - c.den;
      if y != c.maxTimeout {
        ProductGrows(x, c.num, c.den);
        if x == c.maxTimeout { assert false; }
        GrowthStep(c.num, c.den, d, x, y, c.timeoutPropose, Power(c.num, k - 1), Power(c.den, k - 1));
      }
    }
  }

  /** A truncated quotient times its divisor is the dividend up to less than the divisor. */
  lemma Truncated(p: nat, den: nat)
    requires den > 0
    ensures den * (p / den) <= p < den * (p / den + 1)
  {}

  /** One increase exactly: the cap if the product reaches it, and otherwise the product truncated to
      whole nanoseconds. */
  lemma OneIncrease(c: Config, k: nat)
    requires Good(c)
    ensures Backoff(c, k + 1) == c.maxTimeout <==> c.num * Backoff(c, k) >= c.den * c.maxTimeout
    ensures Backoff(c, k + 1) < c.maxTimeout ==>
            c.den * Backoff(c, k + 1) <= c.num * Backoff(c, k) < c.den * (Backoff(c, k + 1) + 1)
    ensures c.den * Backoff(c, k + 1) <= c.num * Backoff(c, k)
  {
    BackoffBounds(c, k);
    var product: nat := Backoff(c, k) * c.num;
    Truncated(product, c.den);
    QuotientAtLeast(product, c.den, c.maxTimeout);
    Monotone(c.maxTimeout, product / c.den, c.den);
  }

  /** Growth is no faster than exponential: after k increases the timeout is at most (num/den)^k times
      the base. */
  lemma {:induction false} GrowsAtMost(c: Config, k: nat)
    requires Good(c)
    ensures Power(c.den, k) * Backoff(c, k) <= Power(c.num, k) * c.timeoutPropose
  {
    if k > 0 {
      GrowsAtMost(c, k - 1);
      OneIncrease(c, k - 1);
      BackoffBounds(c, k - 1);
      BackoffBounds(c, k);
      var x: int, y: int := Backoff(c, k - 1), Backoff(c, k);
      var p, q := Power(c.num, k - 1), Power(c.den, k - 1);
      hide Backoff, Power;
      Opposite(c.den, y);
      Opposite(c.num, x);
      Opposite(q, x);
      Opposite(p, c.timeoutPropose);
      Chain(c.num, c.den, p, q, -x, -y, -c.timeoutPropose);
      Opposite(c.den * q, y);
      Opposite(c.num * p, c.timeoutPropose);
    }
  }

  lemma Opposite(a: int, b: int)
    ensures a * -b == -(a * b)
  {}

  lemma GrowthStep(num: nat, den: nat, d: nat, x: nat, y: nat, base: nat, p: nat, q: nat)
    requires d == num - den && den > 0 && den * y >= num * x - (den - 1)
    requires q * (d * x - (den - 1)) >= p * (d * base - (den - 1))
    ensures (den * q) * (d * y - (den - 1)) >= (num * p) * (d * base - (den - 1))
  {
    OneStep(num, den, d, x, y);
    Chain(num, den, p, q, d * x - (den - 1), d * y - (den - 1), d * base - (den - 1));
  }

  lemma OneStep(num: nat, den: nat, d: nat, x: nat, y: nat)
    requires d == num - den && den > 0 && den * y >= num * x - (den - 1)
    ensures den * (d * y - (den - 1)) >= num * (d * x - (den - 1))
  {
    var e := den - 1;
    Monotone(num * x - e, den * y, d);
    calc {
      den * (d * y - e);
    ==
      (den * y) * d - den * e;
    >=
      (num * x - e) * d - den * e;
    ==
      (num * x) * d - e * d - den * e;
    == { assert e * d + den * e == e * (d + den) == e * num; }
      (num * x) * d - e * num;
    ==
      num * (d * x - e);
    }
  }

  lemma Regroup(x: int, y: int, z: int)
    ensures (x * y) * z == (x * z) * y == (y * z) * x
  {}

  lemma Chain(num: nat, den: nat, p: nat, q: nat, a: int, b: int, r: int)
    requires den * b >= num * a && q * a >= p * r
    ensures (den * q) * b >= (num * p) * r
  {
    Monotone(num * a, den * b, q);
    Monotone(p * r, q * a, num);
    Regroup(den, q, b);
    Regroup(num, q, a);
    Regroup(num, p, r);
  }

  /** While an increase has any effect the timeout gains at least one nanosecond. */
  lemma {:induction false} CapWithin(c: Config, k: nat)
    requires Good(c) && c.timeoutPropose * (c.num - c.den) >= c.den
    ensures Backoff(c, k) == c.maxTimeout || Backoff(c, k) >= c.timeoutPropose + k
  {
    if k > 0 {
      CapWithin(c, k - 1);
      BackoffBounds(c, k - 1);
      var x := Backoff(c, k - 1);
      Monotone(c.timeoutPropose, x, c.num - c.den);
      ProductGrows(x, c.num, c.den);
    }
  }

  lemma {:induction false} Stuck(c: Config, k: nat)
    requires Good(c) && c.timeoutPropose * (c.num - c.den) < c.den
    ensures Backoff(c, k) == c.timeoutPropose
  {
    if k > 0 {
      Stuck(c, k - 1);
      ProductGrows(c.timeoutPropose, c.num, c.den);
    }
  }

  ghost predicate ReachesCap(c: Config)
    requires Good(c)
  {
    exists k :: Backoff(c, k) == c.maxTimeout
  }

  /** Increases alone reach the cap exactly when they start there or the first one has an effect, and
      then within maxTimeout - timeoutPropose of them; for 3/2 that is any base of at least 2. */
  lemma ReachesCapExactly(c: Config)
    requires Good(c)
    ensures ReachesCap(c) <==> c.timeoutPropose == c.maxTimeout || c.timeoutPropose * (c.num - c.den) >= c.den
    ensures ReachesCap(c) ==> Backoff(c, c.maxTimeout - c.timeoutPropose) == c.maxTimeout
  {
    hide Backoff;
    var n := c.maxTimeout - c.timeoutPropose;
    if c.timeoutPropose * (c.num - c.den) >= c.den {
      CapWithin(c, n);
      BackoffBounds(c, n);
    } else {
      Stuck(c, n);
      if ReachesCap(c) {
        var k :| Backoff(c, k) == c.maxTimeout;
        Stuck(c, k);
      }
    }
  }

  // ---- The pacemaker ----

  datatype Event = Increase | Reset | Commit

  /** How many increases a history ends with. */
  function SinceReset(events: seq<Event>): nat {
    if events == [] || !events[|events| - 1].Increase? then 0 else 1 + SinceReset(events[..|events| - 1])
  }

  class Pacemaker {
    const config: Config
    var currentTimeout: nat
    var consecutiveFailures: nat
    ghost var events: seq<Event>

    /** The failure count is the number of increases since the last commit or reset, and the timeout
        is the base raised that many times, so it lies between the base and the cap. */
    ghost predicate Valid()
      reads this
    {
      && Good(config)
      && consecutiveFailures == SinceReset(events)
      && currentTimeout == Backoff(config, consecutiveFailures)
      && config.timeoutPropose <= currentTimeout <= config.maxTimeout
    }

    /** NewPacemakerWithConfig, for a configuration that passes Validate. */
    constructor (c: Config)
      requires Good(c)
      ensures Valid() && config == c && events == []
    {
      config := c;
      currentTimeout := c.timeoutPropose;
      consecutiveFailures := 0;
      events := [];
    }

    method IncreaseTimeout()
      requires Valid()
      modifies this
      ensures Valid() && events == old(events) + [Increase] && consecutiveFailures == old(consecutiveFailures) + 1
      ensures currentTimeout >= old(currentTimeout)
      ensures currentTimeout == config.maxTimeout <==> config.num * old(currentTimeout) >= config.den * config.maxTimeout
      ensures currentTimeout < config.maxTimeout ==>
              config.den * currentTimeout <= config.num * old(currentTimeout) < config.den * (currentTimeout + 1)
    {
      OneIncrease(config, consecutiveFailures);
      BackoffBounds(config, consecutiveFailures);
      BackoffBounds(config, consecutiveFailures + 1);
      assert (events + [Increase])[..|events|] == events;
      consecutiveFailures := consecutiveFailures + 1;
      var newTimeout := currentTimeout * config.num / config.den;
      if newTimeout > config.maxTimeout { newTimeout := config.maxTimeout; }
      currentTimeout := newTimeout;
      events := events + [Increase];
    }

    method ResetTimeout()
      requires Valid()
      modifies this
      ensures Valid() && events == old(events) + [Reset]
      ensures currentTimeout == config.timeoutPropose && consecutiveFailures == 0
    {
      consecutiveFailures := 0;
      currentTimeout := config.timeoutPropose;
      events := events + [Reset];
    }

    /** The part of OnCommit that ends the backoff. */
    method OnCommit()
      requires Valid()
      modifies this
      ensures Valid() && events == old(events) + [Commit]
      ensures currentTimeout == config.timeoutPropose && consecutiveFailures == 0
    {
      consecutiveFailures := 0;
      currentTimeout := config.timeoutPropose;
      events := events + [Commit];
    }
  }
}
