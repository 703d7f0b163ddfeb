/** The in-memory key store: a map under a mutex, whose units finish by key. */
module MemoryKeys {
  import opened Options
  import opened IdempotentWrites
  import opened KeyLifecycle
  import opened FiniteSets

  type UnitId = nat

  /** A record of the map. `unit` is its identity: which reservation made it. */
  datatype Record = Record(fingerprint: Fingerprint, response: Option<Response>, expires: int, unit: UnitId)

  datatype OpenUnit = OpenUnit(key: Key, expires: int)

  datatype Memory = Memory(now: int, keys: map<Key, Record>, open: map<UnitId, OpenUnit>, next: UnitId)

  datatype Call =
    | Elapse(elapsed: nat)
    | ReserveKey(key: Key, fingerprint: Fingerprint, ttl: int)
    | Complete(unit: UnitId, response: Response)
    | Abandon(unit: UnitId)
    | PurgeKeys

  const EMPTY_MEMORY := Memory(0, map[], map[], 0)

  // ---------- the map ----------

  /** The key is taken: held.expires.After(now). */
  predicate Taken(keys: map<Key, Record>, now: int, key: Key) {
    key in keys && now < keys[key].expires
  }

  /** Writes to whatever record the key has now. */
  function Completing(keys: map<Key, Record>, key: Key, response: Response): map<Key, Record> {
    if key in keys then keys[key := keys[key].(response := Some(response))] else keys
  }

  function Lapsed(keys: map<Key, Record>, now: int): set<Key> {
    set k | k in keys && !(now < keys[k].expires)
  }

  // ---------- the map, the clock and the units ----------

  function MemReserve(m: Memory, key: Key, fingerprint: Fingerprint, ttl: int): Memory {
    if Taken(m.keys, m.now, key) then m
    else m.(keys := m.keys[key := Record(fingerprint, None, m.now + ttl, m.next)],
            open := m.open[m.next := OpenUnit(key, m.now + ttl)], next := m.next + 1)
  }

  function Step(m: Memory, c: Call): Memory {
    match c
    case Elapse(elapsed) => m.(now := m.now + elapsed)
    case ReserveKey(key, fingerprint, ttl) => MemReserve(m, key, fingerprint, ttl)
    case Complete(unit, response) =>
      if unit !in m.open then m
      else m.(keys := Completing(m.keys, m.open[unit].key, response), open := m.open - {unit})
    case Abandon(unit) =>
      if unit !in m.open then m
      else m.(keys := m.keys - {m.open[unit].key}, open := m.open - {unit})
    case PurgeKeys => m.(keys := m.keys - Lapsed(m.keys, m.now))
  }

  function RunCalls(cs: seq<Call>): Memory {
    if cs == [] then EMPTY_MEMORY else Step(RunCalls(cs[..|cs| - 1]), cs[|cs| - 1])
  }

  // ---------- a unit on time ----------

  predicate OnTime(m: Memory, unit: UnitId) {
    unit in m.open && m.now < m.open[unit].expires
  }

  /** The record a unit is about is still the one it reserved, and has no response yet. */
  predicate Owns(m: Memory, unit: UnitId) {
    unit in m.open && m.open[unit].key in m.keys && m.keys[m.open[unit].key].unit == unit
      && m.keys[m.open[unit].key].response.None? && m.keys[m.open[unit].key].expires == m.open[unit].expires
  }

  /** Every finish of the run so far came before the unit's own reservation expired. */
  ghost predicate Punctual(cs: seq<Call>) {
    cs == [] || (var init, c := cs[..|cs| - 1], cs[|cs| - 1];
                 && Punctual(init)
                 && (c.Complete? && c.unit in RunCalls(init).open ==> OnTime(RunCalls(init), c.unit))
                 && (c.Abandon? && c.unit in RunCalls(init).open ==> OnTime(RunCalls(init), c.unit)))
  }

  /** A unit on time owns its record, and a record in use without a response has its unit open. */
  ghost predicate MemInv(m: Memory) {
    && (forall u | u in m.open :: u < m.next)
    && (forall k | k in m.keys :: m.keys[k].unit < m.next)
    && (forall u | OnTime(m, u) :: Owns(m, u))
    && (forall k | k in m.keys && m.keys[k].unit in m.open ::
          m.open[m.keys[k].unit] == OpenUnit(k, m.keys[k].expires))
    && (forall k | Taken(m.keys, m.now, k) && m.keys[k].response.None? :: m.keys[k].unit in m.open && m.open[m.keys[k].unit].key == k)
  }

  lemma MemStep(m: Memory, c: Call)
    requires MemInv(m)
    requires c.Complete? && c.unit in m.open ==> OnTime(m, c.unit)
    requires c.Abandon? && c.unit in m.open ==> OnTime(m, c.unit)
    ensures MemInv(Step(m, c))
  {
    var m' := Step(m, c);
    forall u | OnTime(m', u) ensures Owns(m', u) {
      if u in m.open {
        assert OnTime(m, u) && Owns(m, u);
        if (c.Complete? || c.Abandon?) && c.unit in m.open { assert Owns(m, c.unit); }
      }
    }
  }

  lemma {:induction false} RunMem(cs: seq<Call>)
    requires Punctual(cs)
    ensures MemInv(RunCalls(cs))
  {
    if cs != [] {
      RunMem(cs[..|cs| - 1]);
      MemStep(RunCalls(cs[..|cs| - 1]), cs[|cs| - 1]);
    }
  }

  /** Provided no reservation expires before its unit finishes: a unit's Complete or Abandon finds its own
    reservation under the key, and at most one unit per key is running. */
  lemma FinishesOwnReservation(cs: seq<Call>, unit: UnitId)
    requires Punctual(cs) && OnTime(RunCalls(cs), unit)
    ensures Owns(RunCalls(cs), unit)
    ensures forall other | OnTime(RunCalls(cs), other) && RunCalls(cs).open[other].key == RunCalls(cs).open[unit].key ::
      other == unit
  {
    RunMem(cs);
  }

  predicate Finishes(c: Call, unit: UnitId) {
    (c.Complete? || c.Abandon?) && c.unit == unit
  }

  /** Whatever happens next, other than time passing or its own end, the unit still finds its reservation. */
  ghost predicate Undisturbed(cs: seq<Call>, unit: UnitId) {
    forall c | Punctual(cs + [c]) && !c.Elapse? && !Finishes(c, unit) :: Owns(Step(RunCalls(cs), c), unit)
  }

  lemma PunctualOne(cs: seq<Call>, c: Call)
    ensures RunCalls(cs + [c]) == Step(RunCalls(cs), c)
    ensures Punctual(cs + [c]) <==> Punctual(cs) && (Finishes(c, if c.Complete? || c.Abandon? then c.unit else 0) && c.unit in RunCalls(cs).open
                                                     ==> OnTime(RunCalls(cs), c.unit))
  {
    assert (cs + [c])[..|cs + [c]| - 1] == cs;
  }

  /** Expiry is exactly the line: an open unit is sure of its reservation if and only if it has not expired. */
  lemma SureIffOnTime(cs: seq<Call>, unit: UnitId)
    requires Punctual(cs) && unit in RunCalls(cs).open
    ensures Undisturbed(cs, unit) <==> OnTime(RunCalls(cs), unit)
  {
    var m := RunCalls(cs);
    RunMem(cs);
    if OnTime(m, unit) {
      forall c | Punctual(cs + [c]) && !c.Elapse? && !Finishes(c, unit) ensures Owns(Step(m, c), unit) {
        PunctualOne(cs, c);
        MemStep(m, c);
        assert OnTime(Step(m, c), unit);
      }
    } else {
      PunctualOne(cs, PurgeKeys);
      assert !Owns(Step(m, PurgeKeys), unit);
    }
  }

  // ---------- the same life of a key as in the durable store ----------

  function StatusOf(m: Memory, key: Key): KeyStatus {
    if !Taken(m.keys, m.now, key) then Free
    else match m.keys[key].response
         case None => InProgress(m.keys[key].unit)
         case Some(response) => Completed(response)
  }

  /** Every call moves every key along its life, and only the unit that reserved a key ends its progress,
    unless it lets the reservation expire. */
  lemma MemoryFollows(cs: seq<Call>, c: Call, key: Key)
    requires Punctual(cs + [c])
    ensures Follows(StatusOf(RunCalls(cs), key), StatusOf(Step(RunCalls(cs), c), key))
    ensures StatusOf(RunCalls(cs), key).InProgress? && StatusOf(Step(RunCalls(cs), c), key) != StatusOf(RunCalls(cs), key) ==>
      || ((c.Complete? || c.Abandon?) && c.unit == StatusOf(RunCalls(cs), key).owner)
      || (c.Elapse? && StatusOf(Step(RunCalls(cs), c), key).Free?)
  {
    assert (cs + [c])[..|cs + [c]| - 1] == cs;
    RunMem(cs);
  }

  // ---------- how long a response is kept ----------

  /** A completed key stays as it is until it expires: no unit on time is about it. */
  lemma CompletedStep(m: Memory, c: Call, key: Key)
    requires MemInv(m) && key in m.keys && m.keys[key].response.Some? && m.now < m.keys[key].expires
    requires c.Complete? && c.unit in m.open ==> OnTime(m, c.unit)
    requires c.Abandon? && c.unit in m.open ==> OnTime(m, c.unit)
    ensures key in Step(m, c).keys && Step(m, c).keys[key] == m.keys[key]
    ensures m.now <= Step(m, c).now
  {
    if (c.Complete? || c.Abandon?) && c.unit in m.open { assert Owns(m, c.unit); }
  }

  lemma MemClockGrows(m: Memory, c: Call)
    ensures m.now <= Step(m, c).now
  {
  }

  lemma {:induction false} CompletedOn(cs: seq<Call>, more: seq<Call>, all: seq<Call>, key: Key)
    requires all == cs + more && Punctual(all)
    requires key in RunCalls(cs).keys && RunCalls(cs).keys[key].response.Some?
    requires RunCalls(all).now < RunCalls(cs).keys[key].expires
    ensures key in RunCalls(all).keys && RunCalls(all).keys[key] == RunCalls(cs).keys[key]
    decreases |more|
  {
    if more == [] {
      assert all == cs;
    } else {
      var init, c := all[..|all| - 1], all[|all| - 1];
      assert init == cs + more[..|more| - 1] && c == more[|more| - 1];
      MemClockGrows(RunCalls(init), c);
      CompletedOn(cs, more[..|more| - 1], init, key);
      RunMem(init);
      CompletedStep(RunCalls(init), c, key);
    }
  }

  /** A free key that is reserved, and completed by its unit: until the ttl is over it keeps that response. */
  lemma MemReplayedUntilExpiry(cs: seq<Call>, key: Key, fingerprint: Fingerprint, ttl: int, response: Response, more: seq<Call>)
    requires Punctual(cs) && !(key in RunCalls(cs).keys && RunCalls(cs).now < RunCalls(cs).keys[key].expires) && ttl > 0
    requires Punctual(cs + [ReserveKey(key, fingerprint, ttl)] + [Complete(RunCalls(cs).next, response)] + more)
    requires RunCalls(cs + [ReserveKey(key, fingerprint, ttl)] + [Complete(RunCalls(cs).next, response)] + more).now
             < RunCalls(cs).now + ttl
    ensures var start := RunCalls(cs);
            var m := RunCalls(cs + [ReserveKey(key, fingerprint, ttl)] + [Complete(start.next, response)] + more);
      && key in m.keys && m.keys[key] == Record(fingerprint, Some(response), start.now + ttl, start.next)
      && StatusOf(m, key) == Completed(response)
  {
    var reserved := cs + [ReserveKey(key, fingerprint, ttl)];
    var completed := reserved + [Complete(RunCalls(cs).next, response)];
    RunMem(cs);
    PunctualOne(cs, ReserveKey(key, fingerprint, ttl));
    PunctualOne(reserved, Complete(RunCalls(cs).next, response));
    CompletedOn(completed, more, completed + more, key);
  }

  // ---------- a unit that is late ----------

  /** Every unit that is late finishes on somebody else's reservation as soon as its key is asked for again: the
    other request's record, still in progress, is answered with the late one's response, or freed. */
  lemma LateUnitTouchesAnother(cs: seq<Call>, unit: UnitId, fingerprint: Fingerprint, ttl: int, response: Response)
    requires Punctual(cs) && unit in RunCalls(cs).open && !OnTime(RunCalls(cs), unit) && ttl > 0
    ensures var key := RunCalls(cs).open[unit].key;
            var m := RunCalls(cs + [ReserveKey(key, fingerprint, ttl)]);
      && Taken(m.keys, m.now, key) && m.keys[key].unit != unit && unit in m.open
      && Step(m, Complete(unit, response)).keys == m.keys[key := m.keys[key].(response := Some(response))]
      && StatusOf(Step(m, Complete(unit, response)), key) == Completed(response)
      && key !in Step(m, Abandon(unit)).keys
  {
    var m := RunCalls(cs);
    RunMem(cs);
    PunctualOne(cs, ReserveKey(m.open[unit].key, fingerprint, ttl));
  }

  // ---------- the store itself ----------

  datatype MemReservation = Unit(unit: MemUnit) | Seen(record: Record)

  class MemoryStore {
    var keys: map<Key, Record>
    var next: UnitId

    constructor ()
      ensures keys == map[] && next == 0
    {
      keys, next := map[], 0;
    }

    method Reserve(now: int, key: Key, fingerprint: Fingerprint, ttl: int) returns (r: MemReservation)
      modifies this
      ensures r.Seen? <==> key in old(keys) && now < old(keys)[key].expires
      ensures r.Seen? ==> r.record == old(keys)[key] && keys == old(keys) && next == old(next)
      ensures r.Unit? ==> keys == old(keys)[key := Record(fingerprint, None, now + ttl, old(next))] && next == old(next) + 1
      ensures forall open :: var m := MemReserve(Memory(now, old(keys), open, old(next)), key, fingerprint, ttl);
        m.keys == keys && m.next == next
      ensures r.Unit? ==> fresh(r.unit) && r.unit.store == this && r.unit.key == key && !r.unit.done
    {
      if key in keys && now < keys[key].expires { return Seen(keys[key]); }
      keys := keys[key := Record(fingerprint, None, now + ttl, next)];
      next := next + 1;
      var u := new MemUnit(this, key);
      r := Unit(u);
    }

    /** Deletes the expired records one by one, and counts them. */
    method Purge(now: int) returns (n: nat)
      modifies this`keys
      ensures keys == old(keys) - Lapsed(old(keys), now)
      ensures n == |Lapsed(old(keys), now)|
      ensures forall key :: key in keys <==> key in old(keys) && now < old(keys)[key].expires
      ensures forall key | key in keys :: keys[key] == old(keys)[key]
    {
      ghost var lapsed := Lapsed(keys, now);
      var left := keys.Keys;
      n := 0;
      while left != {}
        invariant left <= old(keys).Keys && n == |lapsed - left|
        invariant keys == old(keys) - (lapsed - left)
        decreases |left|
      {
        var key :| key in left;
        OneLess(lapsed, left, key);
        MapWithoutOneMore(old(keys), lapsed - left, key);
        if !(now < keys[key].expires) {
          keys := keys - {key};
          n := n + 1;
        }
        left := left - {key};
      }
      assert lapsed - left == lapsed;
    }
  }

  class MemUnit {
    const store: MemoryStore
    const key: Key
    var done: bool

    constructor (store: MemoryStore, key: Key)
      ensures this.store == store && this.key == key && !done
    {
      this.store, this.key, done := store, key, false;
    }

    method Complete(response: Response)
      modifies this, store`keys
      ensures done
      ensures old(done) ==> store.keys == old(store.keys)
      ensures !old(done) ==> store.keys == Completing(old(store.keys), key, response)
      ensures !old(done) && key in old(store.keys) ==>
        store.keys == old(store.keys)[key := old(store.keys)[key].(response := Some(response))]
      ensures key !in old(store.keys) ==> store.keys == old(store.keys)
    {
      if done { return; }
      done := true;
      if key in store.keys { store.keys := store.keys[key := store.keys[key].(response := Some(response))]; }
    }

    method Abandon()
      modifies this, store`keys
      ensures done
      ensures old(done) ==> store.keys == old(store.keys)
      ensures !old(done) ==> store.keys == old(store.keys) - {key}
    {
      if done { return; }
      done := true;
      store.keys := store.keys - {key};
    }
  }
}
