/** One token bucket per caller, and the sweep that forgets idle callers. Token levels are exact reals, times
  are nanoseconds. */
module RateLimit {
  import opened FiniteSets

  const SECOND := 1_000_000_000

  /** Sustained rate in tokens per second, and depth. */
  datatype Quota = Quota(rate: real, burst: int)

  datatype Config = Config(keyTTL: int, anonymous: Quota, standard: Quota, internal: Quota)

  /** `tokens` is the level at time `last`; `seen` is the last time the caller asked. */
  datatype Bucket = Bucket(tier: string, seen: int, tokens: real, last: int)

  type Buckets = map<string, Bucket>

  datatype Decision = Decision(allowed: bool, limit: int, window: int, remaining: int, reset: real, tier: string)

  predicate ValidQuota(q: Quota) {
    q.rate > 0.0 && q.burst >= 1
  }

  predicate ValidConfig(cfg: Config) {
    cfg.keyTTL > 0 && ValidQuota(cfg.anonymous) && ValidQuota(cfg.standard) && ValidQuota(cfg.internal)
  }

  /** An unknown tier gets the anonymous quota. */
  function QuotaOf(cfg: Config, tier: string): Quota {
    if tier == "internal" then cfg.internal
    else if tier == "standard" then cfg.standard
    else cfg.anonymous
  }

  // ---------- a bucket ----------

  /** What accumulates in a time, without the depth. */
  function Gain(rate: real, elapsed: int): real {
    rate * elapsed as real / SECOND as real
  }

  function Min(a: real, b: real): real {
    if a <= b then a else b
  }

  function TokensAt(q: Quota, b: Bucket, now: int): real {
    Min(q.burst as real, b.tokens + Gain(q.rate, if now < b.last then 0 else now - b.last))
  }

  function Full(q: Quota, tier: string, now: int): Bucket {
    Bucket(tier, now, q.burst as real, now)
  }

  /** Takes a token if there is one; a refused call changes nothing. */
  function Take(q: Quota, b: Bucket, now: int): Bucket {
    if TokensAt(q, b, now) >= 1.0 then b.(tokens := TokensAt(q, b, now) - 1.0, last := now) else b
  }

  /** Seconds, rounded up, and at least one. */
  function Refill(q: Quota): int {
    if q.rate <= 0.0 then 1
    else
      var seconds := -(-(q.burst as real / q.rate)).Floor;
      if seconds < 1 then 1 else seconds
  }

  // ---------- the limiter ----------

  /** The bucket a call uses: the caller's, unless there is none or it is another tier's. */
  function BucketFor(cfg: Config, buckets: Buckets, key: string, tier: string, now: int): Bucket {
    (if key in buckets && buckets[key].tier == tier then buckets[key]
     else Full(QuotaOf(cfg, tier), tier, now)).(seen := now)
  }

  function AfterAllow(cfg: Config, buckets: Buckets, key: string, tier: string, now: int): Buckets {
    buckets[key := Take(QuotaOf(cfg, tier), BucketFor(cfg, buckets, key, tier, now), now)]
  }

  /** What is answered from a bucket. */
  function Answer(q: Quota, b: Bucket, tier: string, now: int): Decision {
    var allowed := TokensAt(q, b, now) >= 1.0;
    var left := TokensAt(q, Take(q, b, now), now);
    Decision(allowed, q.burst, Refill(q), if left < 0.0 then 0 else left.Floor,
             if allowed || q.rate == 0.0 then 0.0 else (1.0 - left) * SECOND as real / q.rate, tier)
  }

  function Decide(cfg: Config, buckets: Buckets, key: string, tier: string, now: int): Decision {
    Answer(QuotaOf(cfg, tier), BucketFor(cfg, buckets, key, tier, now), tier, now)
  }

  /** The buckets nobody has used for the TTL. */
  function Idle(cfg: Config, buckets: Buckets, now: int): set<string> {
    set key | key in buckets && buckets[key].seen < now - cfg.keyTTL
  }

  datatype Call = Allow(key: string, tier: string, at: int) | Sweep(at: int)

  function Next(cfg: Config, buckets: Buckets, c: Call): Buckets {
    match c
    case Allow(key, tier, at) => AfterAllow(cfg, buckets, key, tier, at)
    case Sweep(at) => buckets - Idle(cfg, buckets, at)
  }

  function Run(cfg: Config, calls: seq<Call>): Buckets {
    if calls == [] then map[] else Next(cfg, Run(cfg, calls[..|calls| - 1]), calls[|calls| - 1])
  }

  /** Every decision of a run, in order. */
  function Decisions(cfg: Config, calls: seq<Call>): seq<Decision> {
    if calls == [] then []
    else
      var init, c := calls[..|calls| - 1], calls[|calls| - 1];
      Decisions(cfg, init) + if c.Allow? then [Decide(cfg, Run(cfg, init), c.key, c.tier, c.at)] else []
  }

  /** The same calls to a limiter that never forgets. */
  function Unswept(calls: seq<Call>): seq<Call> {
    if calls == [] then []
    else Unswept(calls[..|calls| - 1]) + if calls[|calls| - 1].Allow? then [calls[|calls| - 1]] else []
  }

  /** The clock does not go back. */
  ghost predicate Nondecreasing(calls: seq<Call>) {
    forall i, j | 0 <= i <= j < |calls| :: calls[i].at <= calls[j].at
  }

  // ---------- arithmetic ----------

  /** Rates are per second, and times in nanoseconds. */
  lemma GainPerSecond(rate: real, elapsed: int)
    ensures Gain(rate, elapsed) == rate * elapsed as real / 1_000_000_000.0
  {
  }

  lemma GainAdds(rate: real, a: int, b: int)
    ensures Gain(rate, a + b) == Gain(rate, a) + Gain(rate, b)
  {
    assert rate * (a as real + b as real) == rate * a as real + rate * b as real;
  }

  lemma GainGrows(rate: real, a: int, b: int)
    requires rate > 0.0 && a <= b
    ensures Gain(rate, a) <= Gain(rate, b)
    ensures a >= 0 ==> Gain(rate, a) >= 0.0
  {
    assert rate * a as real <= rate * b as real;
    if a >= 0 { assert rate * a as real >= 0.0; }
  }

  /** Letting time pass adds what accumulates, up to the depth. */
  lemma TokensLater(q: Quota, b: Bucket, now: int, later: int)
    requires ValidQuota(q) && b.last <= now <= later
    ensures TokensAt(q, b, later) == Min(q.burst as real, TokensAt(q, b, now) + Gain(q.rate, later - now))
    ensures TokensAt(q, b, now) <= TokensAt(q, b, later)
  {
    GainAdds(q.rate, now - b.last, later - now);
    GainGrows(q.rate, 0, later - now);
  }

  // ---------- what every run keeps ----------

  /** The level is between empty and full, and both times are past. */
  ghost predicate BucketValid(cfg: Config, b: Bucket, now: int) {
    0.0 <= b.tokens <= QuotaOf(cfg, b.tier).burst as real && b.last <= b.seen <= now
  }

  ghost predicate Valid(cfg: Config, buckets: Buckets, now: int) {
    forall key | key in buckets :: BucketValid(cfg, buckets[key], now)
  }

  lemma TokensWithin(q: Quota, b: Bucket, now: int)
    requires ValidQuota(q) && b.tokens >= 0.0
    ensures 0.0 <= TokensAt(q, b, now) <= q.burst as real
  {
    GainGrows(q.rate, 0, if now < b.last then 0 else now - b.last);
  }

  lemma StepValid(cfg: Config, buckets: Buckets, c: Call, now: int)
    requires ValidConfig(cfg) && Valid(cfg, buckets, now) && now <= c.at
    ensures Valid(cfg, Next(cfg, buckets, c), c.at)
  {
    if c.Allow? {
      var q, b := QuotaOf(cfg, c.tier), BucketFor(cfg, buckets, c.key, c.tier, c.at);
      TokensWithin(q, b, c.at);
    }
  }

  function End(calls: seq<Call>, start: int): int {
    if calls == [] then start else calls[|calls| - 1].at
  }

  lemma {:induction false} RunValid(cfg: Config, calls: seq<Call>, start: int)
    requires ValidConfig(cfg) && Nondecreasing(calls)
    ensures Valid(cfg, Run(cfg, calls), End(calls, start))
  {
    if calls != [] {
      var init := calls[..|calls| - 1];
      RunValid(cfg, init, calls[0].at);
      StepValid(cfg, Run(cfg, init), calls[|calls| - 1], End(init, calls[0].at));
    }
  }

  /** What a caller is told makes sense: the quota left is between 0 and the limit; a caller who is refused has
    none left; and the reset is exactly how long a refused caller, asking nothing else, has to wait. */
  lemma DecisionSound(cfg: Config, calls: seq<Call>, key: string, tier: string, now: int, later: int)
    requires ValidConfig(cfg) && Nondecreasing(calls) && End(calls, now) <= now <= later
    ensures var d := Decide(cfg, Run(cfg, calls), key, tier, now);
            var retry := Decide(cfg, AfterAllow(cfg, Run(cfg, calls), key, tier, now), key, tier, later);
      && 0 <= d.remaining <= d.limit
      && (!d.allowed ==> d.remaining == 0 && d.reset > 0.0)
      && (!d.allowed ==> (retry.allowed <==> (later - now) as real >= d.reset))
      && (d.allowed ==> d.reset == 0.0 && (d.remaining >= 1 ==> retry.allowed))
  {
    var buckets := Run(cfg, calls);
    RunValid(cfg, calls, now);
    var q, b := QuotaOf(cfg, tier), BucketFor(cfg, buckets, key, tier, now);
    assert BucketFor(cfg, AfterAllow(cfg, buckets, key, tier, now), key, tier, later) == Take(q, b, now).(seen := later);
    AnswerSound(q, b, tier, now, later);
  }

  lemma AnswerSound(q: Quota, b: Bucket, tier: string, now: int, later: int)
    requires ValidQuota(q) && 0.0 <= b.tokens && b.last <= now <= later
    ensures var d, retry := Answer(q, b, tier, now), Answer(q, Take(q, b, now).(seen := later), tier, later);
      && 0 <= d.remaining <= d.limit
      && (!d.allowed ==> d.remaining == 0 && d.reset > 0.0)
      && (!d.allowed ==> (retry.allowed <==> (later - now) as real >= d.reset))
      && (d.allowed ==> d.reset == 0.0 && (d.remaining >= 1 ==> retry.allowed))
  {
    TokensWithin(q, b, now);
    var taken := Take(q, b, now).(seen := later);
    TokensWithin(q, taken, now);
    TokensLater(q, taken, now, later);
    var left := TokensAt(q, taken, now);
    assert left == TokensAt(q, Take(q, b, now), now);
    if TokensAt(q, b, now) < 1.0 {
      WaitIsExact(q.rate, 1.0 - left, later - now);
    }
  }

  lemma Scales(k: real, a: real, b: real)
    requires k > 0.0
    ensures a <= b <==> k * a <= k * b
  {
  }

  lemma WaitIsExact(rate: real, missing: real, wait: int)
    requires rate > 0.0 && missing > 0.0
    ensures missing * SECOND as real / rate > 0.0
    ensures Gain(rate, wait) >= missing <==> wait as real >= missing * SECOND as real / rate
  {
    var r := missing * SECOND as real / rate;
    assert rate * r == missing * SECOND as real;
    Scales(rate, r, wait as real);
    Scales(rate, r, 0.0);
    assert Gain(rate, wait) * SECOND as real == rate * wait as real;
  }

  lemma Ceiling(x: real, n: int)
    ensures n as real >= x <==> n >= -(-x).Floor
  {
  }

  /** The window is the least whole number of seconds, from one, in which a full burst accumulates. */
  lemma WindowIsLeast(q: Quota, seconds: int)
    requires ValidQuota(q) && seconds >= 1
    ensures Gain(q.rate, seconds * SECOND) >= q.burst as real <==> seconds >= Refill(q)
    ensures q.rate * seconds as real >= q.burst as real <==> seconds >= Refill(q)
  {
    var exact := q.burst as real / q.rate;
    assert q.rate * exact == q.burst as real;
    GainOfSeconds(q.rate, seconds);
    Scales(q.rate, exact, seconds as real);
    Ceiling(exact, seconds);
    var least := -(-exact).Floor;
    assert Refill(q) == if least < 1 then 1 else least;
  }

  lemma GainOfSeconds(rate: real, seconds: int)
    ensures Gain(rate, seconds * SECOND) == rate * seconds as real
  {
    assert (seconds * SECOND) as real == seconds as real * SECOND as real;
    assert rate * (seconds as real * SECOND as real) == rate * seconds as real * SECOND as real;
  }

  // ---------- forgetting ----------

  /** The first moment at which a bucket can be swept is late enough for it to be full again. */
  predicate CoversRefill(cfg: Config, q: Quota) {
    Gain(q.rate, cfg.keyTTL + 1) >= q.burst as real
  }

  predicate TTLCovers(cfg: Config) {
    CoversRefill(cfg, cfg.anonymous) && CoversRefill(cfg, cfg.standard) && CoversRefill(cfg, cfg.internal)
  }

  /** The swept limiter holds some of the buckets of the one that never forgets, and the others are full. */
  ghost predicate Forgets(cfg: Config, swept: Buckets, all: Buckets, now: int) {
    && (forall key | key in swept :: key in all && swept[key] == all[key])
    && (forall key | key in all && key !in swept :: FullAt(cfg, all[key], now))
  }

  ghost predicate FullAt(cfg: Config, b: Bucket, now: int) {
    b.last <= now && TokensAt(QuotaOf(cfg, b.tier), b, now) == QuotaOf(cfg, b.tier).burst as real
  }

  lemma SameLevel(q: Quota, a: Bucket, b: Bucket, now: int)
    requires q.burst >= 1 && a.tier == b.tier && a.seen == b.seen
    requires TokensAt(q, a, now) == TokensAt(q, b, now) == q.burst as real
    ensures Take(q, a, now) == Take(q, b, now)
    ensures Answer(q, a, a.tier, now) == Answer(q, b, a.tier, now)
  {
  }

  lemma FullBucketFor(cfg: Config, buckets: Buckets, key: string, tier: string, now: int)
    requires ValidConfig(cfg)
    requires key in buckets && buckets[key].tier == tier ==> FullAt(cfg, buckets[key], now)
    ensures TokensAt(QuotaOf(cfg, tier), BucketFor(cfg, buckets, key, tier, now), now) == QuotaOf(cfg, tier).burst as real
  {
    assert Gain(QuotaOf(cfg, tier).rate, 0) == 0.0;
  }

  /** A full bucket cannot be told from a new one. */
  lemma FullIsFresh(cfg: Config, swept: Buckets, all: Buckets, key: string, tier: string, now: int)
    requires ValidConfig(cfg) && Forgets(cfg, swept, all, now)
    ensures Decide(cfg, swept, key, tier, now) == Decide(cfg, all, key, tier, now)
    ensures AfterAllow(cfg, swept, key, tier, now)[key] == AfterAllow(cfg, all, key, tier, now)[key]
  {
    if key !in swept {
      FullBucketFor(cfg, swept, key, tier, now);
      FullBucketFor(cfg, all, key, tier, now);
      SameLevel(QuotaOf(cfg, tier), BucketFor(cfg, swept, key, tier, now), BucketFor(cfg, all, key, tier, now), now);
    }
  }

  lemma StaysFull(cfg: Config, b: Bucket, now: int, later: int)
    requires ValidConfig(cfg) && FullAt(cfg, b, now) && now <= later
    ensures FullAt(cfg, b, later)
  {
    TokensLater(QuotaOf(cfg, b.tier), b, now, later);
  }

  lemma IdleIsFull(cfg: Config, b: Bucket, now: int)
    requires ValidConfig(cfg) && TTLCovers(cfg) && BucketValid(cfg, b, now) && b.seen < now - cfg.keyTTL
    ensures FullAt(cfg, b, now)
  {
    var q := QuotaOf(cfg, b.tier);
    GainGrows(q.rate, cfg.keyTTL + 1, now - b.last);
  }

  lemma ForgetsStep(cfg: Config, swept: Buckets, all: Buckets, c: Call, now: int)
    requires ValidConfig(cfg) && TTLCovers(cfg) && now <= c.at
    requires Forgets(cfg, swept, all, now) && Valid(cfg, all, now)
    ensures Forgets(cfg, swept, all, c.at)
    ensures Forgets(cfg, Next(cfg, swept, c), if c.Allow? then Next(cfg, all, c) else all, c.at)
  {
    forall key | key in all && key !in swept ensures FullAt(cfg, all[key], c.at) {
      StaysFull(cfg, all[key], now, c.at);
    }
    if c.Allow? {
      FullIsFresh(cfg, swept, all, c.key, c.tier, c.at);
    } else {
      forall key | key in Idle(cfg, swept, c.at) ensures FullAt(cfg, all[key], c.at) {
        IdleIsFull(cfg, all[key], c.at);
      }
    }
  }

  lemma {:induction false} UnsweptOrder(calls: seq<Call>, latest: int)
    requires Nondecreasing(calls) && forall i | 0 <= i < |calls| :: calls[i].at <= latest
    ensures Nondecreasing(Unswept(calls))
    ensures forall i | 0 <= i < |Unswept(calls)| :: Unswept(calls)[i].at <= latest
  {
    if calls != [] {
      var init := calls[..|calls| - 1];
      UnsweptOrder(init, calls[|calls| - 1].at);
    }
  }

  lemma RunOne(cfg: Config, calls: seq<Call>, c: Call)
    ensures Run(cfg, calls + [c]) == Next(cfg, Run(cfg, calls), c)
    ensures Unswept(calls + [c]) == if c.Allow? then Unswept(calls) + [c] else Unswept(calls)
    ensures Decisions(cfg, calls + [c])
      == Decisions(cfg, calls) + if c.Allow? then [Decide(cfg, Run(cfg, calls), c.key, c.tier, c.at)] else []
  {
    assert (calls + [c])[..|calls + [c]| - 1] == calls;
  }

  lemma {:induction false} SweptRun(cfg: Config, calls: seq<Call>, start: int)
    requires ValidConfig(cfg) && TTLCovers(cfg) && Nondecreasing(calls)
    requires calls != [] ==> start <= calls[0].at
    ensures Forgets(cfg, Run(cfg, calls), Run(cfg, Unswept(calls)), End(calls, start))
    ensures Valid(cfg, Run(cfg, Unswept(calls)), End(calls, start))
    ensures Decisions(cfg, calls) == Decisions(cfg, Unswept(calls))
  {
    if calls != [] {
      var init, c := calls[..|calls| - 1], calls[|calls| - 1];
      SweptRun(cfg, init, start);
      var swept, all := Run(cfg, init), Run(cfg, Unswept(init));
      assert calls == init + [c];
      RunOne(cfg, init, c);
      assert Run(cfg, calls) == Next(cfg, swept, c);
      if c.Allow? {
        RunOne(cfg, Unswept(init), c);
        assert Run(cfg, Unswept(calls)) == Next(cfg, all, c);
      } else {
        assert Run(cfg, Unswept(calls)) == all;
      }
      SweptStep(cfg, swept, all, c, End(init, start));
    }
  }

  lemma SweptStep(cfg: Config, swept: Buckets, all: Buckets, c: Call, now: int)
    requires ValidConfig(cfg) && TTLCovers(cfg) && now <= c.at
    requires Forgets(cfg, swept, all, now) && Valid(cfg, all, now)
    ensures c.Allow? ==> Decide(cfg, swept, c.key, c.tier, c.at) == Decide(cfg, all, c.key, c.tier, c.at)
    ensures Forgets(cfg, Next(cfg, swept, c), if c.Allow? then Next(cfg, all, c) else all, c.at)
    ensures Valid(cfg, if c.Allow? then Next(cfg, all, c) else all, c.at)
  {
    ForgetsStep(cfg, swept, all, c, now);
    StepValid(cfg, all, c, now);
    ValidLater(cfg, all, now, c.at);
    if c.Allow? { FullIsFresh(cfg, swept, all, c.key, c.tier, c.at); }
  }

  // ---------- and when it shows ----------

  /** Spends a burst at time 0, is swept as soon as it can be, and asks again. */
  function Probe(cfg: Config, tier: string): seq<Call> {
    Spend(tier, QuotaOf(cfg, tier).burst) + [Sweep(cfg.keyTTL + 1), Allow("caller", tier, cfg.keyTTL + 1)]
  }

  function Spend(tier: string, n: int): seq<Call> {
    if n <= 0 then [] else Spend(tier, n - 1) + [Allow("caller", tier, 0)]
  }

  lemma SpendOne(cfg: Config, tier: string, held: int)
    requires ValidConfig(cfg) && 1 <= held <= QuotaOf(cfg, tier).burst
    ensures AfterAllow(cfg, map["caller" := Bucket(tier, 0, held as real, 0)], "caller", tier, 0)
      == map["caller" := Bucket(tier, 0, (held - 1) as real, 0)]
    ensures held == QuotaOf(cfg, tier).burst ==>
      AfterAllow(cfg, map[], "caller", tier, 0) == map["caller" := Bucket(tier, 0, (held - 1) as real, 0)]
  {
    assert Gain(QuotaOf(cfg, tier).rate, 0) == 0.0;
  }

  lemma {:induction false} Spent(cfg: Config, tier: string, n: int)
    requires ValidConfig(cfg) && 1 <= n <= QuotaOf(cfg, tier).burst
    ensures Run(cfg, Spend(tier, n)) == map["caller" := Bucket(tier, 0, (QuotaOf(cfg, tier).burst - n) as real, 0)]
    ensures Unswept(Spend(tier, n)) == Spend(tier, n)
    ensures forall i | 0 <= i < |Spend(tier, n)| :: Spend(tier, n)[i].at == 0
  {
    var init := Spend(tier, n - 1);
    RunOne(cfg, init, Allow("caller", tier, 0));
    if n > 1 { Spent(cfg, tier, n - 1); }
    SpendOne(cfg, tier, QuotaOf(cfg, tier).burst - (n - 1));
  }

  lemma LastDiffers<T>(prefix: seq<T>, x: T, y: T)
    requires x != y
    ensures prefix + [x] != prefix + [y]
  {
    assert (prefix + [x])[|prefix|] == x;
  }

  lemma ProbeDecisions(cfg: Config, spend: seq<Call>, sweep: Call, ask: Call)
    requires sweep.Sweep? && ask.Allow? && Unswept(spend) == spend
    requires Decide(cfg, Run(cfg, spend + [sweep]), ask.key, ask.tier, ask.at) != Decide(cfg, Run(cfg, spend), ask.key, ask.tier, ask.at)
    ensures Decisions(cfg, spend + [sweep] + [ask]) != Decisions(cfg, Unswept(spend + [sweep] + [ask]))
  {
    var both := spend + [sweep];
    var x := Decide(cfg, Run(cfg, both), ask.key, ask.tier, ask.at);
    var y := Decide(cfg, Run(cfg, spend), ask.key, ask.tier, ask.at);
    RunOne(cfg, spend, sweep);
    assert Unswept(both) == spend && Decisions(cfg, both) == Decisions(cfg, spend);
    RunOne(cfg, both, ask);
    assert Decisions(cfg, both + [ask]) == Decisions(cfg, spend) + [x];
    RunOne(cfg, spend, ask);
    assert Decisions(cfg, spend + [ask]) == Decisions(cfg, spend) + [y];
    LastDiffers(Decisions(cfg, spend), x, y);
  }

  lemma ProbeIsOrdered(spend: seq<Call>, sweep: Call, ask: Call)
    requires (forall i | 0 <= i < |spend| :: spend[i].at == 0) && 0 <= sweep.at == ask.at
    ensures Nondecreasing(spend + [sweep] + [ask])
  {
  }

  lemma ProbeTells(cfg: Config, tier: string)
    requires ValidConfig(cfg) && !CoversRefill(cfg, QuotaOf(cfg, tier))
    ensures Nondecreasing(Probe(cfg, tier))
    ensures Decisions(cfg, Probe(cfg, tier)) != Decisions(cfg, Unswept(Probe(cfg, tier)))
  {
    var burst := QuotaOf(cfg, tier).burst;
    var spend, sweep, ask := Spend(tier, burst), Sweep(cfg.keyTTL + 1), Allow("caller", tier, cfg.keyTTL + 1);
    Spent(cfg, tier, burst);
    ProbeShape(cfg, tier, spend, sweep, ask);
    ProbeIsOrdered(spend, sweep, ask);
    RunOne(cfg, spend, sweep);
    AsksDiffer(cfg, tier, Run(cfg, spend + [sweep]), Run(cfg, spend));
    ProbeDecisions(cfg, spend, sweep, ask);
  }

  lemma ProbeShape(cfg: Config, tier: string, spend: seq<Call>, sweep: Call, ask: Call)
    requires spend == Spend(tier, QuotaOf(cfg, tier).burst)
    requires sweep == Sweep(cfg.keyTTL + 1) && ask == Allow("caller", tier, cfg.keyTTL + 1)
    ensures Probe(cfg, tier) == spend + [sweep] + [ask]
  {
  }

  lemma AsksDiffer(cfg: Config, tier: string, swept: Buckets, all: Buckets)
    requires ValidConfig(cfg) && !CoversRefill(cfg, QuotaOf(cfg, tier))
    requires all == map["caller" := Bucket(tier, 0, 0.0, 0)] && swept == all - Idle(cfg, all, cfg.keyTTL + 1)
    ensures Decide(cfg, swept, "caller", tier, cfg.keyTTL + 1) != Decide(cfg, all, "caller", tier, cfg.keyTTL + 1)
  {
    var q, now := QuotaOf(cfg, tier), cfg.keyTTL + 1;
    assert swept == map[];
    assert Gain(q.rate, 0) == 0.0;
    var a, b := BucketFor(cfg, swept, "caller", tier, now), BucketFor(cfg, all, "caller", tier, now);
    assert TokensAt(q, a, now) == q.burst as real && TokensAt(q, b, now) < q.burst as real;
    var x, y := Decide(cfg, swept, "caller", tier, now), Decide(cfg, all, "caller", tier, now);
    assert x.allowed && x.remaining == q.burst - 1;
    if y.allowed {
      assert TokensAt(q, Take(q, b, now), now) < (q.burst - 1) as real;
    }
  }

  /** The sweep is equivalent to never forgetting, for every run, exactly when the TTL covers every tier's
    refill: one nanosecond past it, an empty bucket is full. */
  lemma SweepIsInvisibleIffTTLCovers(cfg: Config)
    requires ValidConfig(cfg)
    ensures TTLCovers(cfg) <==>
      forall calls: seq<Call> | Nondecreasing(calls) :: Decisions(cfg, calls) == Decisions(cfg, Unswept(calls))
  {
    if TTLCovers(cfg) {
      forall calls: seq<Call> | Nondecreasing(calls) ensures Decisions(cfg, calls) == Decisions(cfg, Unswept(calls)) {
        SweptRun(cfg, calls, if calls == [] then 0 else calls[0].at);
      }
    } else {
      var tier := if !CoversRefill(cfg, cfg.internal) then "internal"
                  else if !CoversRefill(cfg, cfg.standard) then "standard" else "";
      ProbeTells(cfg, tier);
    }
  }

  /** A TTL of at least the advertised window of every tier is enough. */
  lemma WindowIsEnough(cfg: Config)
    requires ValidConfig(cfg)
    requires cfg.keyTTL >= Refill(cfg.anonymous) * SECOND && cfg.keyTTL >= Refill(cfg.standard) * SECOND
             && cfg.keyTTL >= Refill(cfg.internal) * SECOND
    ensures TTLCovers(cfg)
  {
    WindowCovers(cfg, cfg.anonymous);
    WindowCovers(cfg, cfg.standard);
    WindowCovers(cfg, cfg.internal);
  }

  lemma WindowCovers(cfg: Config, q: Quota)
    requires ValidQuota(q) && cfg.keyTTL >= Refill(q) * SECOND
    ensures CoversRefill(cfg, q)
  {
    WindowIsLeast(q, Refill(q));
    GainGrows(q.rate, Refill(q) * SECOND, cfg.keyTTL + 1);
  }

  // ---------- the limit is enforced ----------

  /** What the caller could still spend at once. */
  function Level(cfg: Config, buckets: Buckets, key: string, tier: string, now: int): real {
    TokensAt(QuotaOf(cfg, tier), BucketFor(cfg, buckets, key, tier, now), now)
  }

  /** The calls of a caller that were allowed, from the i-th call on. */
  function Allowed(cfg: Config, calls: seq<Call>, from: nat, key: string): nat {
    if |calls| <= from then 0
    else
      var init, c := calls[..|calls| - 1], calls[|calls| - 1];
      Allowed(cfg, init, from, key)
        + if c.Allow? && c.key == key && Decide(cfg, Run(cfg, init), c.key, c.tier, c.at).allowed then 1 else 0
  }

  /** The caller always shows the same tier. */
  ghost predicate OneTier(calls: seq<Call>, key: string, tier: string) {
    forall i | 0 <= i < |calls| && calls[i].Allow? && calls[i].key == key :: calls[i].tier == tier
  }

  /** A call costs the caller a token if it is the caller's and allowed; nothing else changes the level. */
  lemma LevelStep(cfg: Config, buckets: Buckets, c: Call, now: int, key: string, tier: string)
    requires ValidConfig(cfg) && TTLCovers(cfg) && Valid(cfg, buckets, now) && now <= c.at
    requires c.Allow? && c.key == key ==> c.tier == tier
    ensures Level(cfg, Next(cfg, buckets, c), key, tier, c.at)
      == Level(cfg, buckets, key, tier, c.at)
         - if c.Allow? && c.key == key && Decide(cfg, buckets, c.key, c.tier, c.at).allowed then 1.0 else 0.0
  {
    var q := QuotaOf(cfg, tier);
    assert Gain(q.rate, 0) == 0.0;
    if c.Allow? && c.key == key {
      TokensWithin(q, BucketFor(cfg, buckets, key, tier, c.at), c.at);
    } else if c.Sweep? && key in Idle(cfg, buckets, c.at) && buckets[key].tier == tier {
      IdleIsFull(cfg, buckets[key], c.at);
    }
  }

  lemma LevelLater(cfg: Config, buckets: Buckets, key: string, tier: string, now: int, later: int)
    requires ValidConfig(cfg) && Valid(cfg, buckets, now) && now <= later
    ensures Level(cfg, buckets, key, tier, later) <= Level(cfg, buckets, key, tier, now) + Gain(QuotaOf(cfg, tier).rate, later - now)
    ensures 0.0 <= Level(cfg, buckets, key, tier, now) <= QuotaOf(cfg, tier).burst as real
  {
    var q := QuotaOf(cfg, tier);
    GainGrows(q.rate, 0, later - now);
    TokensWithin(q, BucketFor(cfg, buckets, key, tier, now), now);
    if key in buckets && buckets[key].tier == tier {
      TokensLater(q, buckets[key], now, later);
    } else {
      assert Gain(q.rate, 0) == 0.0;
    }
  }

  /** The same from the call before on: what is spent comes out of what was there and what accumulated. */
  lemma LevelAdvance(cfg: Config, buckets: Buckets, c: Call, now: int, key: string, tier: string)
    requires ValidConfig(cfg) && TTLCovers(cfg) && Valid(cfg, buckets, now) && now <= c.at
    requires c.Allow? && c.key == key ==> c.tier == tier
    ensures Level(cfg, Next(cfg, buckets, c), key, tier, c.at)
            + (if c.Allow? && c.key == key && Decide(cfg, buckets, c.key, c.tier, c.at).allowed then 1.0 else 0.0)
      <= Level(cfg, buckets, key, tier, now) + Gain(QuotaOf(cfg, tier).rate, c.at - now)
    ensures Level(cfg, buckets, key, tier, now) <= QuotaOf(cfg, tier).burst as real
  {
    LevelStep(cfg, buckets, c, now, key, tier);
    LevelLater(cfg, buckets, key, tier, now, c.at);
  }

  ghost predicate WithinLimit(cfg: Config, calls: seq<Call>, from: nat, key: string, tier: string)
    requires from < |calls|
  {
    var start, end := calls[from].at, calls[|calls| - 1].at;
    Allowed(cfg, calls, from, key) as real + Level(cfg, Run(cfg, calls), key, tier, end)
      <= QuotaOf(cfg, tier).burst as real + Gain(QuotaOf(cfg, tier).rate, end - start)
  }

  lemma FirstWithinLimit(cfg: Config, init: seq<Call>, c: Call, key: string, tier: string)
    requires ValidConfig(cfg) && TTLCovers(cfg) && Nondecreasing(init + [c])
    requires c.Allow? && c.key == key ==> c.tier == tier
    ensures WithinLimit(cfg, init + [c], |init|, key, tier)
  {
    var calls := init + [c];
    assert calls[..|calls| - 1] == init;
    PrefixOrder(init, c);
    RunValid(cfg, init, c.at);
    ValidLater(cfg, Run(cfg, init), End(init, c.at), c.at);
    LevelAdvance(cfg, Run(cfg, init), c, c.at, key, tier);
    assert Gain(QuotaOf(cfg, tier).rate, 0) == 0.0;
    assert Allowed(cfg, init, |init|, key) == 0;
  }

  lemma NextWithinLimit(cfg: Config, init: seq<Call>, c: Call, from: nat, key: string, tier: string)
    requires ValidConfig(cfg) && TTLCovers(cfg) && Nondecreasing(init + [c])
    requires c.Allow? && c.key == key ==> c.tier == tier
    requires from < |init| && WithinLimit(cfg, init, from, key, tier)
    ensures WithinLimit(cfg, init + [c], from, key, tier)
  {
    var calls, now := init + [c], End(init, c.at);
    assert calls[..|calls| - 1] == init;
    PrefixOrder(init, c);
    RunValid(cfg, init, c.at);
    LevelAdvance(cfg, Run(cfg, init), c, now, key, tier);
    GainAdds(QuotaOf(cfg, tier).rate, now - calls[from].at, c.at - now);
  }

  lemma PrefixOrder(init: seq<Call>, c: Call)
    requires Nondecreasing(init + [c])
    ensures Nondecreasing(init) && (init != [] ==> init[|init| - 1].at <= c.at)
  {
    var calls := init + [c];
    forall i, j | 0 <= i <= j < |init| ensures init[i].at <= init[j].at { assert calls[i].at <= calls[j].at; }
    if init != [] { assert calls[|init| - 1].at <= calls[|init|].at; }
  }

  lemma {:induction false} LevelRun(cfg: Config, calls: seq<Call>, from: nat, key: string, tier: string)
    requires ValidConfig(cfg) && TTLCovers(cfg) && Nondecreasing(calls) && from < |calls|
    requires OneTier(calls, key, tier)
    ensures WithinLimit(cfg, calls, from, key, tier)
  {
    var init, c := calls[..|calls| - 1], calls[|calls| - 1];
    assert calls == init + [c];
    PrefixOrder(init, c);
    if from < |init| {
      LevelRun(cfg, init, from, key, tier);
      NextWithinLimit(cfg, init, c, from, key, tier);
    } else {
      FirstWithinLimit(cfg, init, c, key, tier);
    }
  }

  lemma ValidLater(cfg: Config, buckets: Buckets, now: int, later: int)
    requires Valid(cfg, buckets, now) && now <= later
    ensures Valid(cfg, buckets, later)
  {
  }

  /** The quota of each tier; whatever is not a tier has the anonymous one. */
  predicate HasQuota(cfg: Config, tier: string, q: Quota) {
    && (tier == "internal" ==> q == cfg.internal)
    && (tier == "standard" ==> q == cfg.standard)
    && (tier != "internal" && tier != "standard" ==> q == cfg.anonymous)
  }

  lemma QuotaIs(cfg: Config, tier: string, q: Quota)
    ensures HasQuota(cfg, tier, q) <==> q == QuotaOf(cfg, tier)
  {
  }

  lemma LimitHolds(cfg: Config, calls: seq<Call>, from: nat, key: string, tier: string)
    requires ValidConfig(cfg) && TTLCovers(cfg) && Nondecreasing(calls) && from < |calls|
    requires OneTier(calls, key, tier)
    ensures Affordable(QuotaOf(cfg, tier), Allowed(cfg, calls, from, key), calls[|calls| - 1].at - calls[from].at)
  {
    LevelRun(cfg, calls, from, key, tier);
    RunValid(cfg, calls, 0);
    LevelLater(cfg, Run(cfg, calls), key, tier, calls[|calls| - 1].at, calls[|calls| - 1].at);
    AffordableIs(QuotaOf(cfg, tier), Allowed(cfg, calls, from, key), calls[|calls| - 1].at - calls[from].at);
  }

  /** No more than a burst and what the rate adds in this time. */
  predicate Affordable(q: Quota, allowed: nat, elapsed: int) {
    allowed as real <= q.burst as real + q.rate * elapsed as real / 1_000_000_000.0
  }

  lemma AffordableIs(q: Quota, allowed: nat, elapsed: int)
    ensures Affordable(q, allowed, elapsed) <==> allowed as real <= q.burst as real + Gain(q.rate, elapsed)
  {
    GainPerSecond(q.rate, elapsed);
  }

  /** Over any stretch of any run, sweeps included, a caller of one tier is allowed at most its burst plus what
    its rate accumulates in the time of the stretch. */
  lemma LimitEnforced(cfg: Config, calls: seq<Call>, from: nat, key: string, tier: string, q: Quota)
    requires ValidConfig(cfg) && TTLCovers(cfg) && Nondecreasing(calls) && from < |calls|
    requires OneTier(calls, key, tier) && HasQuota(cfg, tier, q)
    ensures Affordable(q, Allowed(cfg, calls, from, key), calls[|calls| - 1].at - calls[from].at)
  {
    QuotaIs(cfg, tier, q);
    LimitHolds(cfg, calls, from, key, tier);
  }

  // ---------- the token bucket of the textbook ----------

  /** A caller's tokens at a moment, computed from the caller's own calls: the burst at first, and again after a
    change of tier; one less for each call that finds one; and what the rate adds in the time since, up to the burst. */
  function Tokens(q: Quota, calls: seq<Call>, key: string, tier: string, now: int): real {
    if calls == [] then q.burst as real
    else
      var init, c := calls[..|calls| - 1], calls[|calls| - 1];
      if !c.Allow? || c.key != key then Tokens(q, init, key, tier, now)
      else if c.tier != tier then q.burst as real
      else
        Later(q, Tokens(q, init, key, tier, c.at), now - c.at)
  }

  /** A call takes a token if there is one; then time passes. */
  function Later(q: Quota, tokens: real, elapsed: int): real {
    Min(q.burst as real, (if tokens >= 1.0 then tokens - 1.0 else tokens) + Gain(q.rate, elapsed))
  }

  lemma OthersKeepLevel(cfg: Config, buckets: Buckets, c: Call, now: int, key: string, tier: string, later: int)
    requires ValidConfig(cfg) && TTLCovers(cfg) && Valid(cfg, buckets, now) && now <= c.at <= later
    requires !c.Allow? || c.key != key
    ensures Level(cfg, Next(cfg, buckets, c), key, tier, later) == Level(cfg, buckets, key, tier, later)
  {
    if c.Sweep? && key in Idle(cfg, buckets, c.at) && buckets[key].tier == tier {
      IdleIsFull(cfg, buckets[key], c.at);
      StaysFull(cfg, buckets[key], c.at, later);
      FullBucketFor(cfg, Next(cfg, buckets, c), key, tier, later);
    }
  }

  lemma OwnCallLevel(cfg: Config, buckets: Buckets, c: Call, now: int, later: int)
    requires ValidConfig(cfg) && Valid(cfg, buckets, now) && now <= c.at <= later && c.Allow?
    ensures Level(cfg, Next(cfg, buckets, c), c.key, c.tier, later)
      == Later(QuotaOf(cfg, c.tier), Level(cfg, buckets, c.key, c.tier, c.at), later - c.at)
  {
    var q, b := QuotaOf(cfg, c.tier), BucketFor(cfg, buckets, c.key, c.tier, c.at);
    TokensWithin(q, b, c.at);
    var taken := Take(q, b, c.at);
    assert Gain(q.rate, 0) == 0.0;
    TokensLater(q, taken, c.at, later);
    assert BucketFor(cfg, Next(cfg, buckets, c), c.key, c.tier, later) == taken.(seen := later);
  }

  lemma ChangedTierLevel(cfg: Config, buckets: Buckets, c: Call, tier: string, later: int)
    requires ValidConfig(cfg) && c.Allow? && c.tier != tier
    ensures Level(cfg, Next(cfg, buckets, c), c.key, tier, later) == QuotaOf(cfg, tier).burst as real
  {
    assert Gain(QuotaOf(cfg, tier).rate, 0) == 0.0;
  }

  ghost predicate LevelsAre(cfg: Config, calls: seq<Call>, key: string, tier: string, now: int) {
    Level(cfg, Run(cfg, calls), key, tier, now) == Tokens(QuotaOf(cfg, tier), calls, key, tier, now)
  }

  lemma TokensOne(q: Quota, calls: seq<Call>, c: Call, key: string, tier: string, now: int)
    ensures Tokens(q, calls + [c], key, tier, now)
      == if !c.Allow? || c.key != key then Tokens(q, calls, key, tier, now)
         else if c.tier != tier then q.burst as real
         else Later(q, Tokens(q, calls, key, tier, c.at), now - c.at)
  {
    assert (calls + [c])[..|calls + [c]| - 1] == calls;
  }

  lemma OthersLevelsAre(cfg: Config, calls: seq<Call>, c: Call, key: string, tier: string, now: int)
    requires ValidConfig(cfg) && TTLCovers(cfg) && Valid(cfg, Run(cfg, calls), End(calls, c.at)) && End(calls, c.at) <= c.at <= now
    requires (!c.Allow? || c.key != key) && LevelsAre(cfg, calls, key, tier, now)
    ensures LevelsAre(cfg, calls + [c], key, tier, now)
  {
    RunOne(cfg, calls, c);
    TokensOne(QuotaOf(cfg, tier), calls, c, key, tier, now);
    OthersKeepLevel(cfg, Run(cfg, calls), c, End(calls, c.at), key, tier, now);
  }

  lemma OwnLevelsAre(cfg: Config, calls: seq<Call>, c: Call, tier: string, now: int)
    requires ValidConfig(cfg) && Valid(cfg, Run(cfg, calls), End(calls, c.at)) && End(calls, c.at) <= c.at <= now
    requires c.Allow? && LevelsAre(cfg, calls, c.key, tier, c.at)
    ensures LevelsAre(cfg, calls + [c], c.key, tier, now)
  {
    RunOne(cfg, calls, c);
    TokensOne(QuotaOf(cfg, tier), calls, c, c.key, tier, now);
    if c.tier == tier {
      OwnCallLevel(cfg, Run(cfg, calls), c, End(calls, c.at), now);
    } else {
      ChangedTierLevel(cfg, Run(cfg, calls), c, tier, now);
    }
  }

  /** With a TTL that covers every refill, the limiter is that token bucket, caller by caller: in every run, whatever
    other callers do and whenever idle buckets are swept. */
  lemma {:induction false} LevelIsTokens(cfg: Config, calls: seq<Call>, key: string, tier: string, now: int)
    requires ValidConfig(cfg) && TTLCovers(cfg) && Nondecreasing(calls) && End(calls, now) <= now
    ensures LevelsAre(cfg, calls, key, tier, now)
  {
    if calls == [] {
      assert Gain(QuotaOf(cfg, tier).rate, 0) == 0.0;
    } else {
      var init, c := calls[..|calls| - 1], calls[|calls| - 1];
      assert calls == init + [c];
      PrefixOrder(init, c);
      RunValid(cfg, init, c.at);
      if !c.Allow? || c.key != key {
        LevelIsTokens(cfg, init, key, tier, now);
        OthersLevelsAre(cfg, init, c, key, tier, now);
      } else {
        LevelIsTokens(cfg, init, key, tier, c.at);
        OwnLevelsAre(cfg, init, c, tier, now);
      }
    }
  }

  /** What a caller with that many tokens is told. */
  ghost predicate TellsTokens(d: Decision, q: Quota, tokens: real)
    requires q.rate > 0.0
  {
    && (d.allowed <==> tokens >= 1.0)
    && d.remaining == (if d.allowed then (tokens - 1.0).Floor else 0)
    && d.reset == (if d.allowed then 0.0 else (1.0 - tokens) * 1_000_000_000.0 / q.rate)
  }

  /** The policy of its tier: the burst, and the least whole number of seconds in which it accumulates. */
  ghost predicate TellsPolicy(d: Decision, q: Quota, tier: string) {
    && d.limit == q.burst && d.tier == tier && d.window >= 1
    && q.rate * d.window as real >= q.burst as real
    && (d.window > 1 ==> q.rate * (d.window - 1) as real < q.burst as real)
  }

  lemma AnswerTells(q: Quota, b: Bucket, tier: string, now: int)
    requires ValidQuota(q) && 0.0 <= b.tokens && b.last <= now
    ensures TellsTokens(Answer(q, b, tier, now), q, TokensAt(q, b, now))
  {
    TokensWithin(q, b, now);
    assert Gain(q.rate, 0) == 0.0;
  }

  lemma PolicyTells(q: Quota, b: Bucket, tier: string, now: int)
    requires ValidQuota(q)
    ensures TellsPolicy(Answer(q, b, tier, now), q, tier)
  {
    var window := Refill(q);
    WindowIsLeast(q, window);
    if window > 1 { WindowIsLeast(q, window - 1); }
  }

  /** And what a caller is told is what that token bucket says, and the policy of its own tier. */
  lemma DecidedByTokens(cfg: Config, calls: seq<Call>, key: string, tier: string, q: Quota, now: int)
    requires ValidConfig(cfg) && TTLCovers(cfg) && Nondecreasing(calls) && End(calls, now) <= now
    requires HasQuota(cfg, tier, q) && q.rate > 0.0
    ensures TellsTokens(Decide(cfg, Run(cfg, calls), key, tier, now), q, Tokens(q, calls, key, tier, now))
    ensures TellsPolicy(Decide(cfg, Run(cfg, calls), key, tier, now), q, tier)
  {
    QuotaIs(cfg, tier, q);
    LevelIsTokens(cfg, calls, key, tier, now);
    RunValid(cfg, calls, now);
    var b := BucketFor(cfg, Run(cfg, calls), key, tier, now);
    AnswerTells(q, b, tier, now);
    PolicyTells(q, b, tier, now);
  }

  // ---------- the limiter object ----------

  class Limiter {
    const cfg: Config
    var buckets: Buckets

    constructor (cfg: Config)
      ensures this.cfg == cfg && buckets == map[]
    {
      this.cfg, buckets := cfg, map[];
    }

    method Allow(key: string, tier: string, now: int) returns (d: Decision)
      requires ValidConfig(cfg)
      modifies this
      ensures d == Decide(cfg, old(buckets), key, tier, now)
      ensures buckets == AfterAllow(cfg, old(buckets), key, tier, now)
    {
      var quota := QuotaOf(cfg, tier);
      if key !in buckets || buckets[key].tier != tier {
        buckets := buckets[key := Full(quota, tier, now)];
      }
      buckets := buckets[key := buckets[key].(seen := now)];
      var b := buckets[key];
      var level := TokensAt(quota, b, now);
      var allowed := level >= 1.0;
      if allowed {
        b := b.(tokens := level - 1.0, last := now);
        buckets := buckets[key := b];
      }
      level := TokensAt(quota, b, now);
      var remaining := if level < 0.0 then 0 else level.Floor;
      var reset := 0.0;
      if !allowed {
        reset := (1.0 - level) * SECOND as real / quota.rate;
      }
      d := Decision(allowed, quota.burst, Refill(quota), remaining, reset, tier);
    }

    method Sweep(now: int) returns (n: nat)
      modifies this
      ensures buckets == old(buckets) - Idle(cfg, old(buckets), now)
      ensures n == |Idle(cfg, old(buckets), now)|
      ensures forall key :: key in buckets <==> key in old(buckets) && old(buckets)[key].seen >= now - cfg.keyTTL
      ensures forall key | key in buckets :: buckets[key] == old(buckets)[key]
    {
      var cutoff := now - cfg.keyTTL;
      ghost var idle := Idle(cfg, buckets, now);
      var left := buckets.Keys;
      n := 0;
      while left != {}
        invariant left <= old(buckets).Keys && n == |idle - left|
        invariant buckets == old(buckets) - (idle - left)
        decreases |left|
      {
        var key :| key in left;
        OneLess(idle, left, key);
        MapWithoutOneMore(old(buckets), idle - left, key);
        if buckets[key].seen < cutoff {
          buckets := buckets - {key};
          n := n + 1;
        }
        left := left - {key};
      }
      assert idle - left == idle;
    }
  }
}
