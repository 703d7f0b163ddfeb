/** Suppression of repeated WARN and ERROR records, and what becomes of every one of them. */
module LogThrottle {
  import opened Options
  import opened FiniteSets
  import Decimal

  const MAX_KEYS := 512

  const LEVEL_WARN := 4

  datatype Entry = Entry(lastEmit: int, suppressed: nat)

  type Seen = map<string, Entry>

  /** A record's twins have its level and its message. */
  function KeyOf(level: int, message: string): string {
    Decimal.Itoa(level) + "\0" + message
  }

  lemma NumeralHasNoNul(n: int)
    ensures '\0' !in Decimal.Itoa(n)
  {
  }

  /** Nothing else has its key. */
  lemma KeyIsExact(level: int, message: string, level': int, message': string)
    ensures KeyOf(level, message) == KeyOf(level', message') <==> level == level' && message == message'
  {
    var key, key' := KeyOf(level, message), KeyOf(level', message');
    if key == key' {
      var a, b := Decimal.Itoa(level), Decimal.Itoa(level');
      NumeralHasNoNul(level);
      NumeralHasNoNul(level');
      assert key[|a|] == '\0' && key'[|b|] == '\0';
      assert a == key[..|a|] && b == key'[..|a|];
      assert message == key[|a| + 1..] && message' == key'[|a| + 1..];
      Decimal.ItoaInjective(level, level');
    }
  }

  // ---------- eviction ----------

  /** The keys that were last emitted more than ten windows ago. */
  function Quiet(seen: Seen, window: int, now: int): set<string> {
    set k | k in seen && seen[k].lastEmit < now - 10 * window
  }

  /** The map is still full without the quiet keys, and is thrown away. */
  predicate Resets(seen: Seen, window: int, now: int) {
    |seen| >= MAX_KEYS && |seen - Quiet(seen, window, now)| >= MAX_KEYS
  }

  function Evict(seen: Seen, window: int, now: int): Seen {
    if |seen| < MAX_KEYS then seen
    else if Resets(seen, window, now) then map[]
    else seen - Quiet(seen, window, now)
  }

  /** Below 512 keys nothing is forgotten; from 512 on only the recent ones are left, those last emitted within ten
    windows, or nothing if these are 512. */
  lemma EvictKeeps(seen: Seen, window: int, now: int, recent: set<string>)
    requires forall k :: k in recent <==> k in seen && seen[k].lastEmit >= now - 10 * window
    ensures |seen| < 512 ==> Evict(seen, window, now) == seen
    ensures |seen| >= 512 && |recent| >= 512 ==> Evict(seen, window, now) == map[]
    ensures |seen| >= 512 && |recent| < 512 ==> Evict(seen, window, now).Keys == recent
    ensures forall k | k in Evict(seen, window, now) :: k in seen && Evict(seen, window, now)[k] == seen[k]
  {
    var kept := seen - Quiet(seen, window, now);
    assert kept.Keys == recent;
    assert |kept.Keys| == |kept|;
  }

  // ---------- admission ----------

  datatype Verdict = Verdict(emit: bool, reported: nat)

  function Judge(seen: Seen, window: int, key: string, now: int): Verdict {
    if key !in seen then Verdict(true, 0)
    else if now - seen[key].lastEmit >= window then Verdict(true, seen[key].suppressed)
    else Verdict(false, 0)
  }

  function Admitted(seen: Seen, window: int, key: string, now: int): Seen {
    if key !in seen then Evict(seen, window, now)[key := Entry(now, 0)]
    else if now - seen[key].lastEmit >= window then seen[key := Entry(now, 0)]
    else seen[key := Entry(seen[key].lastEmit, seen[key].suppressed + 1)]
  }

  /** The suppressed twins of k that an admission forgets without having reported them. */
  function LostBy(seen: Seen, window: int, key: string, now: int, k: string): nat {
    if key !in seen && k in seen && k !in Evict(seen, window, now) then seen[k].suppressed else 0
  }

  datatype Call = Call(key: string, at: int)

  /** The suppression state after the first n admissions, by the root handler and everything derived from it. */
  function Run(window: int, calls: seq<Call>, n: nat): Seen
    requires n <= |calls|
  {
    if n == 0 then map[] else Admitted(Run(window, calls, n - 1), window, calls[n - 1].key, calls[n - 1].at)
  }

  function VerdictOf(window: int, calls: seq<Call>, i: nat): Verdict
    requires i < |calls|
  {
    Judge(Run(window, calls, i), window, calls[i].key, calls[i].at)
  }

  predicate ResetAt(window: int, calls: seq<Call>, i: nat)
    requires i < |calls|
  {
    calls[i].key !in Run(window, calls, i) && Resets(Run(window, calls, i), window, calls[i].at)
  }

  // ---------- bounded ----------

  lemma AdmittedSize(seen: Seen, window: int, key: string, now: int)
    requires |seen| <= MAX_KEYS
    ensures |Admitted(seen, window, key, now)| <= MAX_KEYS
  {
    var seen' := Admitted(seen, window, key, now);
    assert |seen'.Keys| == |seen'| && |seen.Keys| == |seen|;
    if key in seen {
      assert seen'.Keys == seen.Keys;
    } else {
      var evicted := Evict(seen, window, now);
      assert seen'.Keys == evicted.Keys + {key};
      assert |evicted.Keys| == |evicted| < MAX_KEYS;
    }
  }

  /** However many different messages there are, at most 512 keys are held. */
  lemma {:induction false} Bounded(window: int, calls: seq<Call>, n: nat)
    requires n <= |calls|
    ensures |Run(window, calls, n)| <= 512
  {
    if n > 0 {
      Bounded(window, calls, n - 1);
      AdmittedSize(Run(window, calls, n - 1), window, calls[n - 1].key, calls[n - 1].at);
    }
  }

  // ---------- at most one per window ----------

  ghost predicate Nondecreasing(calls: seq<Call>) {
    forall i, j | 0 <= i <= j < |calls| :: calls[i].at <= calls[j].at
  }

  lemma RememberedStep(seen: Seen, window: int, key: string, now: int, k: string, emitted: int)
    requires window >= 0 && emitted <= now <= emitted + window
    requires k in seen && emitted <= seen[k].lastEmit
    requires !(key !in seen && Resets(seen, window, now))
    ensures k in Admitted(seen, window, key, now) && emitted <= Admitted(seen, window, key, now)[k].lastEmit
  {
  }

  lemma EmittedIsHeld(seen: Seen, window: int, key: string, now: int)
    requires Judge(seen, window, key, now).emit
    ensures key in Admitted(seen, window, key, now) && Admitted(seen, window, key, now)[key].lastEmit == now
  {
  }

  /** Within a window of an emission, and without a reset, the emission is remembered. */
  lemma {:induction false} Remembered(window: int, calls: seq<Call>, i: nat, n: nat)
    requires window >= 0 && Nondecreasing(calls) && i < n <= |calls|
    requires VerdictOf(window, calls, i).emit
    requires calls[n - 1].at - calls[i].at <= window
    requires forall m | i < m < n :: !ResetAt(window, calls, m)
    ensures calls[i].key in Run(window, calls, n)
    ensures Run(window, calls, n)[calls[i].key].lastEmit >= calls[i].at
  {
    var c := calls[n - 1];
    if n - 1 > i {
      Remembered(window, calls, i, n - 1);
      assert !ResetAt(window, calls, n - 1);
      RememberedStep(Run(window, calls, n - 1), window, c.key, c.at, calls[i].key, calls[i].at);
    } else {
      EmittedIsHeld(Run(window, calls, i), window, c.key, c.at);
    }
  }

  /** Two emissions of the same record closer together than the window have a full reset of the map between
    them. */
  lemma SpacedUnlessReset(window: int, calls: seq<Call>, i: nat, j: nat)
    requires window >= 0 && Nondecreasing(calls) && i < j < |calls| && calls[i].key == calls[j].key
    requires VerdictOf(window, calls, i).emit && VerdictOf(window, calls, j).emit
    requires calls[j].at - calls[i].at < window
    ensures exists m | i < m < j :: ResetAt(window, calls, m)
  {
    if forall m | i < m < j :: !ResetAt(window, calls, m) {
      Remembered(window, calls, i, j);
      assert false;
    }
  }

  /** No admission of calls from..n emits the key. */
  ghost predicate QuietBetween(window: int, calls: seq<Call>, key: string, from: nat, n: nat)
    requires n <= |calls|
  {
    forall m | from <= m < n && calls[m].key == key :: !VerdictOf(window, calls, m).emit
  }

  lemma QuietEarlier(window: int, calls: seq<Call>, key: string, from: nat, later: nat, n: nat)
    requires from <= later < n <= |calls| && QuietBetween(window, calls, key, from, n)
    ensures QuietBetween(window, calls, key, later, n) && QuietBetween(window, calls, key, from, n - 1)
    ensures calls[n - 1].key == key ==> !Judge(Run(window, calls, n - 1), window, key, calls[n - 1].at).emit
  {
    assert calls[n - 1].key == key ==> !VerdictOf(window, calls, n - 1).emit;
  }

  lemma AbsentStep(seen: Seen, window: int, key: string, now: int, k: string)
    requires k !in seen || (key !in seen && Resets(seen, window, now))
    requires key == k ==> !Judge(seen, window, key, now).emit
    ensures k !in Admitted(seen, window, key, now)
  {
  }

  /** A key that a reset dropped stays out of the map until it is emitted again. */
  lemma {:induction false} AbsentAfterReset(window: int, calls: seq<Call>, key: string, m: nat, n: nat)
    requires m < n <= |calls| && ResetAt(window, calls, m) && QuietBetween(window, calls, key, m, n)
    ensures key !in Run(window, calls, n)
  {
    QuietEarlier(window, calls, key, m, m, n);
    if m < n - 1 { AbsentAfterReset(window, calls, key, m, n - 1); }
    AbsentStep(Run(window, calls, n - 1), window, calls[n - 1].key, calls[n - 1].at, key);
  }

  /** Exactly when a repeated record is emitted again within the window: when the map was reset since it was
    last emitted. */
  lemma EmittedAgainIffReset(window: int, calls: seq<Call>, i: nat, j: nat)
    requires window >= 0 && Nondecreasing(calls) && i < j < |calls| && calls[i].key == calls[j].key
    requires VerdictOf(window, calls, i).emit && QuietBetween(window, calls, calls[i].key, i + 1, j)
    requires calls[j].at - calls[i].at < window
    ensures VerdictOf(window, calls, j).emit <==> exists m | i < m < j :: ResetAt(window, calls, m)
  {
    if m :| i < m < j && ResetAt(window, calls, m) {
      QuietEarlier(window, calls, calls[i].key, i + 1, m, j);
      AbsentAfterReset(window, calls, calls[i].key, m, j);
    } else if VerdictOf(window, calls, j).emit {
      SpacedUnlessReset(window, calls, i, j);
    }
  }

  // ---------- what is suppressed, and what is reported ----------

  /** The records with key k among the first n. */
  function Admissions(calls: seq<Call>, n: nat, k: string): nat
    requires n <= |calls|
  {
    if n == 0 then 0 else Admissions(calls, n - 1, k) + if calls[n - 1].key == k then 1 else 0
  }

  /** The i-th admission emitted k, and none of the next up to the n-th did. */
  ghost predicate LastEmission(window: int, calls: seq<Call>, n: nat, k: string, i: nat)
    requires n <= |calls|
  {
    i < n && calls[i].key == k && VerdictOf(window, calls, i).emit && QuietBetween(window, calls, k, i + 1, n)
  }

  /** A key is held with the time of its last emission, and with the number of its admissions since. */
  lemma {:induction false} HeldSince(window: int, calls: seq<Call>, n: nat, k: string) returns (i: nat)
    requires n <= |calls| && k in Run(window, calls, n)
    ensures LastEmission(window, calls, n, k, i)
    ensures Run(window, calls, n)[k].lastEmit == calls[i].at
    ensures Run(window, calls, n)[k].suppressed + 1 == Admissions(calls, n, k) - Admissions(calls, i, k)
  {
    var seen, c := Run(window, calls, n - 1), calls[n - 1];
    if c.key == k && Judge(seen, window, k, c.at).emit {
      i := n - 1;
    } else {
      i := HeldSince(window, calls, n - 1, k);
      assert c.key == k ==> !VerdictOf(window, calls, n - 1).emit;
    }
  }

  /** A record is suppressed only within the window of the last emission of its twin. */
  lemma SuppressedWithinWindow(window: int, calls: seq<Call>, j: nat) returns (i: nat)
    requires j < |calls| && !VerdictOf(window, calls, j).emit
    ensures LastEmission(window, calls, j, calls[j].key, i) && calls[j].at - calls[i].at < window
    ensures VerdictOf(window, calls, j).reported == 0
  {
    i := HeldSince(window, calls, j, calls[j].key);
  }

  /** An emission reports all of the records suppressed since the last emission of its twin, or none: exactly when
    the key is not held any more. */
  lemma ReportsAllSince(window: int, calls: seq<Call>, j: nat, i: nat)
    requires j < |calls| && VerdictOf(window, calls, j).emit && LastEmission(window, calls, j, calls[j].key, i)
    ensures VerdictOf(window, calls, j).reported
      == if calls[j].key in Run(window, calls, j) then Admissions(calls, j, calls[j].key) - Admissions(calls, i, calls[j].key) - 1
         else 0
  {
    if calls[j].key in Run(window, calls, j) {
      var last := HeldSince(window, calls, j, calls[j].key);
      assert last == i;
    }
  }

  // ---------- a flood ----------

  ghost predicate DistinctKeys(calls: seq<Call>, n: nat)
    requires n <= |calls|
  {
    forall i, j | 0 <= i < j < n :: calls[i].key != calls[j].key
  }

  /** The keys of the first n calls. */
  ghost predicate HoldsFirst(seen: Seen, calls: seq<Call>, n: nat, since: int)
    requires n <= |calls|
  {
    && |seen| == n
    && (forall k | k in seen :: seen[k].lastEmit >= since && exists i | 0 <= i < n :: calls[i].key == k)
  }

  lemma AdmitNew(seen: Seen, window: int, key: string, now: int)
    requires key !in seen && |seen| < MAX_KEYS
    ensures Admitted(seen, window, key, now) == seen[key := Entry(now, 0)]
    ensures |Admitted(seen, window, key, now)| == |seen| + 1
  {
    var seen' := seen[key := Entry(now, 0)];
    assert seen'.Keys == seen.Keys + {key};
    assert |seen'.Keys| == |seen'| && |seen.Keys| == |seen|;
  }

  lemma NewIsAbsent(seen: Seen, calls: seq<Call>, n: nat, since: int)
    requires n < |calls| && HoldsFirst(seen, calls, n, since) && DistinctKeys(calls, n + 1)
    ensures calls[n].key !in seen
  {
  }

  lemma {:induction false} FloodFills(window: int, calls: seq<Call>, n: nat)
    requires n <= MAX_KEYS && n <= |calls| && calls != [] && DistinctKeys(calls, n) && Nondecreasing(calls)
    ensures HoldsFirst(Run(window, calls, n), calls, n, calls[0].at)
  {
    if n > 0 {
      var seen, c := Run(window, calls, n - 1), calls[n - 1];
      FloodFills(window, calls, n - 1);
      NewIsAbsent(seen, calls, n - 1, calls[0].at);
      AdmitNew(seen, window, c.key, c.at);
    }
  }

  lemma FullMapResets(seen: Seen, calls: seq<Call>, n: nat, window: int, since: int, now: int)
    requires n <= |calls| && HoldsFirst(seen, calls, n, since) && n == MAX_KEYS
    requires window > 0 && now - since < window
    ensures Resets(seen, window, now)
  {
    assert Quiet(seen, window, now) == {};
    assert seen - {} == seen;
  }

  lemma FirstIsEmitted(window: int, calls: seq<Call>)
    requires calls != []
    ensures VerdictOf(window, calls, 0).emit
  {
  }

  /** 513 different records and then the first one again, all within a window, at whatever moments of it: the
    513th resets the map, and the first record is emitted twice. */
  lemma FloodBreaksTheWindow(window: int, calls: seq<Call>, n: nat)
    requires window > 0 && Nondecreasing(calls) && n == MAX_KEYS && |calls| == n + 2
    requires DistinctKeys(calls, n + 1) && calls[n + 1].key == calls[0].key
    requires calls[n + 1].at - calls[0].at < window
    ensures ResetAt(window, calls, n)
    ensures VerdictOf(window, calls, 0).emit && VerdictOf(window, calls, n + 1).emit
  {
    FloodResets(window, calls, n);
    FirstIsEmitted(window, calls);
    assert forall m | 0 < m < n + 1 :: calls[m].key != calls[0].key;
    EmittedAgainIffReset(window, calls, 0, n + 1);
  }

  lemma FloodResets(window: int, calls: seq<Call>, n: nat)
    requires window > 0 && Nondecreasing(calls) && n == MAX_KEYS && n < |calls|
    requires DistinctKeys(calls, n + 1) && calls[n].at - calls[0].at < window
    ensures ResetAt(window, calls, n)
  {
    var seen := Run(window, calls, n);
    FloodFills(window, calls, n);
    NewIsAbsent(seen, calls, n, calls[0].at);
    FullMapResets(seen, calls, n, window, calls[0].at, calls[n].at);
  }

  /** There are such records, for any moments. */
  function Flood(times: seq<int>): (calls: seq<Call>)
    requires |times| == MAX_KEYS + 2
    ensures |calls| == |times| && forall i | 0 <= i < |times| :: calls[i].at == times[i]
  {
    seq(|times|, i requires 0 <= i < |times| =>
      Call(KeyOf(LEVEL_WARN, Decimal.Itoa(if i == MAX_KEYS + 1 then 0 else i)), times[i]))
  }

  lemma FloodIsDistinct(times: seq<int>, n: nat)
    requires n == MAX_KEYS && |times| == n + 2
    ensures DistinctKeys(Flood(times), n + 1) && Flood(times)[n + 1].key == Flood(times)[0].key
  {
    forall i, j | 0 <= i < j < n + 1 ensures Flood(times)[i].key != Flood(times)[j].key {
      KeyIsExact(LEVEL_WARN, Decimal.Itoa(i), LEVEL_WARN, Decimal.Itoa(j));
      if Decimal.Itoa(i) == Decimal.Itoa(j) { Decimal.ItoaInjective(i, j); }
    }
  }

  // ---------- accounting, message by message ----------

  function Emissions(window: int, calls: seq<Call>, n: nat, k: string): nat
    requires n <= |calls|
  {
    if n == 0 then 0
    else Emissions(window, calls, n - 1, k) + if calls[n - 1].key == k && VerdictOf(window, calls, n - 1).emit then 1 else 0
  }

  /** The sum of the suppressed counts that emissions of k carried. */
  function Reported(window: int, calls: seq<Call>, n: nat, k: string): nat
    requires n <= |calls|
  {
    if n == 0 then 0
    else Reported(window, calls, n - 1, k) + if calls[n - 1].key == k then VerdictOf(window, calls, n - 1).reported else 0
  }

  function Lost(window: int, calls: seq<Call>, n: nat, k: string): nat
    requires n <= |calls|
  {
    if n == 0 then 0
    else Lost(window, calls, n - 1, k) + LostBy(Run(window, calls, n - 1), window, calls[n - 1].key, calls[n - 1].at, k)
  }

  function Pending(seen: Seen, k: string): nat {
    if k in seen then seen[k].suppressed else 0
  }

  /** Every record is accounted for once: emitted, reported in the count of a later emission, waiting to be
    reported, or lost when its key was evicted. */
  lemma {:induction false} Accounted(window: int, calls: seq<Call>, n: nat, k: string)
    requires n <= |calls|
    ensures Admissions(calls, n, k)
      == Emissions(window, calls, n, k) + Reported(window, calls, n, k) + Pending(Run(window, calls, n), k) + Lost(window, calls, n, k)
  {
    if n > 0 {
      Accounted(window, calls, n - 1, k);
      AccountStep(Run(window, calls, n - 1), window, calls[n - 1].key, calls[n - 1].at, k);
    }
  }

  lemma AccountStep(seen: Seen, window: int, key: string, now: int, k: string)
    ensures Pending(Admitted(seen, window, key, now), k) + LostBy(seen, window, key, now, k)
            + (if key == k then Judge(seen, window, key, now).reported + (if Judge(seen, window, key, now).emit then 1 else 0) else 0)
      == Pending(seen, k) + if key == k then 1 else 0
  {
  }

  // ---------- accounting, all messages together ----------

  /** The sum of f over a set of keys. */
  ghost function Sum(ks: set<string>, f: string -> nat): nat {
    if ks == {} then 0 else var k :| k in ks; f(k) + Sum(ks - {k}, f)
  }

  lemma {:induction false} SumTakes(ks: set<string>, f: string -> nat, k: string)
    requires k in ks
    ensures Sum(ks, f) == f(k) + Sum(ks - {k}, f)
    decreases |ks|
  {
    var p :| p in ks && Sum(ks, f) == f(p) + Sum(ks - {p}, f);
    if p != k {
      SumTakes(ks - {p}, f, k);
      SumTakes(ks - {k}, f, p);
      assert ks - {p} - {k} == ks - {k} - {p};
    }
  }

  lemma {:induction false} SumAdds(ks: set<string>, f: string -> nat, g: string -> nat, h: string -> nat)
    requires forall k | k in ks :: f(k) == g(k) + h(k)
    ensures Sum(ks, f) == Sum(ks, g) + Sum(ks, h)
    decreases |ks|
  {
    if ks != {} {
      var k :| k in ks;
      SumTakes(ks, f, k);
      SumTakes(ks, g, k);
      SumTakes(ks, h, k);
      SumAdds(ks - {k}, f, g, h);
    }
  }

  function KeysOf(calls: seq<Call>): set<string> {
    set c | c in calls :: c.key
  }

  lemma {:induction false} OneEach(ks: set<string>, calls: seq<Call>, n: nat)
    requires KeysOf(calls) <= ks && n <= |calls|
    ensures Sum(ks, k => Admissions(calls, n, k)) == n
  {
    if n == 0 {
      SumZero(ks, k => Admissions(calls, 0, k));
    } else {
      var key := calls[n - 1].key;
      var one: string -> nat := k => if key == k then 1 else 0;
      OneEach(ks, calls, n - 1);
      SumAdds(ks, k => Admissions(calls, n, k), k => Admissions(calls, n - 1, k), one);
      assert calls[n - 1] in calls && key in ks;
      SumTakes(ks, one, key);
      SumZero(ks - {key}, one);
    }
  }

  lemma {:induction false} SumZero(ks: set<string>, f: string -> nat)
    requires forall k | k in ks :: f(k) == 0
    ensures Sum(ks, f) == 0
    decreases |ks|
  {
    if ks != {} {
      var k :| k in ks;
      SumTakes(ks, f, k);
      SumZero(ks - {k}, f);
    }
  }

  /** The same for all records of a run together. */
  lemma AllAccounted(window: int, calls: seq<Call>, n: nat)
    requires n == |calls|
    ensures var ks := KeysOf(calls);
      n == Sum(ks, k => Emissions(window, calls, n, k)) + Sum(ks, k => Reported(window, calls, n, k))
           + Sum(ks, k => Pending(Run(window, calls, n), k)) + Sum(ks, k => Lost(window, calls, n, k))
  {
    var ks, seen := KeysOf(calls), Run(window, calls, n);
    var admissions: string -> nat := k => Admissions(calls, n, k);
    var emissions: string -> nat := k => Emissions(window, calls, n, k);
    var reported: string -> nat := k => Reported(window, calls, n, k);
    var pending: string -> nat := k => Pending(seen, k);
    var lost: string -> nat := k => Lost(window, calls, n, k);
    var told: string -> nat := k => emissions(k) + reported(k);
    var untold: string -> nat := k => pending(k) + lost(k);
    forall k | k in ks ensures admissions(k) == told(k) + untold(k) { Accounted(window, calls, n, k); }
    OneEach(ks, calls, n);
    SumAdds(ks, admissions, told, untold);
    SumAdds(ks, told, emissions, reported);
    SumAdds(ks, untold, pending, lost);
  }

  // ---------- the handlers ----------

  datatype Record = Record(level: int, message: string)

  /** What the wrapped handler is given; a count is attached when records were suppressed. */
  datatype Line = Line(record: Record, suppressed: Option<nat>)

  class Sink {
    var lines: seq<Line>

    constructor ()
      ensures lines == []
    {
      lines := [];
    }
  }

  /** What reaches the wrapped handler. */
  function Lines(seen: Seen, window: int, r: Record, now: int): seq<Line> {
    if r.level < LEVEL_WARN then [Line(r, None)]
    else
      var v := Judge(seen, window, KeyOf(r.level, r.message), now);
      if !v.emit then [] else [Line(r, if v.reported > 0 then Some(v.reported) else None)]
  }

  function Noted(seen: Seen, window: int, r: Record, now: int): Seen {
    if r.level < LEVEL_WARN then seen else Admitted(seen, window, KeyOf(r.level, r.message), now)
  }

  /** Below WARN everything passes. From WARN on, the first record of its kind passes, and a later one only if the
    window is over; then it carries the number of those that did not pass, if there were any. */
  ghost predicate Passes(before: Seen, after: Seen, window: int, r: Record, now: int, lines: seq<Line>) {
    if r.level < 4 then lines == [Line(r, None)] && after == before
    else
      var key := Decimal.Itoa(r.level) + "\0" + r.message;
      if key !in before then
        lines == [Line(r, None)] && after == Evict(before, window, now)[key := Entry(now, 0)]
      else if now - before[key].lastEmit >= window then
        && lines == [Line(r, if before[key].suppressed == 0 then None else Some(before[key].suppressed))]
        && after == before[key := Entry(now, 0)]
      else
        lines == [] && after == before[key := Entry(before[key].lastEmit, before[key].suppressed + 1)]
  }

  lemma PassesLaw(seen: Seen, window: int, r: Record, now: int)
    ensures Passes(seen, Noted(seen, window, r, now), window, r, now, Lines(seen, window, r, now))
  {
  }


  class ThrottleHandler {
    const next: Sink
    const window: int
    var seen: Seen

    constructor (next: Sink, window: int)
      ensures this.next == next && this.window == window && seen == map[]
    {
      this.next, this.window, seen := next, window, map[];
    }

    method EvictLocked(now: int)
      modifies this
      ensures seen == Evict(old(seen), window, now)
    {
      if |seen| < MAX_KEYS { return; }
      var cutoff := now - 10 * window;
      ghost var quiet := Quiet(seen, window, now);
      var left := seen.Keys;
      while left != {}
        invariant left <= old(seen).Keys
        invariant seen == old(seen) - (quiet - left)
        decreases |left|
      {
        var key :| key in left;
        OneLess(quiet, left, key);
        MapWithoutOneMore(old(seen), quiet - left, key);
        if seen[key].lastEmit < cutoff {
          seen := seen - {key};
        }
        left := left - {key};
      }
      assert quiet - left == quiet;
      if |seen| >= MAX_KEYS {
        seen := map[];
      }
    }

    method Admit(r: Record, now: int) returns (v: Verdict)
      modifies this
      ensures v == Judge(old(seen), window, KeyOf(r.level, r.message), now)
      ensures seen == Admitted(old(seen), window, KeyOf(r.level, r.message), now)
    {
      var key := KeyOf(r.level, r.message);
      if key !in seen {
        EvictLocked(now);
        seen := seen[key := Entry(now, 0)];
        return Verdict(true, 0);
      }
      var e := seen[key];
      if now - e.lastEmit >= window {
        seen := seen[key := Entry(now, 0)];
        return Verdict(true, e.suppressed);
      }
      seen := seen[key := e.(suppressed := e.suppressed + 1)];
      v := Verdict(false, 0);
    }

    method Handle(r: Record, now: int)
      modifies this, next
      ensures seen == Noted(old(seen), window, r, now)
      ensures next.lines == old(next.lines) + Lines(old(seen), window, r, now)
      ensures Passes(old(seen), seen, window, r, now, Lines(old(seen), window, r, now))
    {
      PassesLaw(seen, window, r, now);
      if r.level < LEVEL_WARN {
        next.lines := next.lines + [Line(r, None)];
        return;
      }
      var v := Admit(r, now);
      if !v.emit { return; }
      next.lines := next.lines + [Line(r, if v.reported > 0 then Some(v.reported) else None)];
    }

    /** A logger with more attributes: its own output, the same budget. */
    method Derive(next: Sink) returns (share: ThrottleShare)
      ensures fresh(share) && share.parent == this && share.next == next
    {
      share := new ThrottleShare(this, next);
    }
  }

  class ThrottleShare {
    const parent: ThrottleHandler
    const next: Sink

    constructor (parent: ThrottleHandler, next: Sink)
      ensures this.parent == parent && this.next == next
    {
      this.parent, this.next := parent, next;
    }

    /** The root decides, and remembers; the line goes to this handler's own output. */
    method Handle(r: Record, now: int)
      modifies parent, next
      ensures parent.seen == Noted(old(parent.seen), parent.window, r, now)
      ensures next.lines == old(next.lines) + Lines(old(parent.seen), parent.window, r, now)
      ensures Passes(old(parent.seen), parent.seen, parent.window, r, now, Lines(old(parent.seen), parent.window, r, now))
    {
      PassesLaw(parent.seen, parent.window, r, now);
      if r.level < LEVEL_WARN {
        next.lines := next.lines + [Line(r, None)];
        return;
      }
      var v := parent.Admit(r, now);
      if !v.emit { return; }
      next.lines := next.lines + [Line(r, if v.reported > 0 then Some(v.reported) else None)];
    }

    method Derive(next: Sink) returns (share: ThrottleShare)
      ensures fresh(share) && share.parent == parent && share.next == next
    {
      share := new ThrottleShare(parent, next);
    }
  }
}
