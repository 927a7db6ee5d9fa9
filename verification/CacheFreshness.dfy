/**
  How old a cached answer can be, with any number of goroutines inside the getters. Each
  step is one locked section of the cache, or the end of one process scan.
*/
module CacheFreshness {
  import opened Common
  import opened MetricsCache

  /** A scan, and the time at which it started to read. */
  datatype Reading = Reading(table: Table, at: int)

  /** A table in the hands of a goroutine, since when. */
  datatype Held = Held(table: Table, at: int)

  datatype State = State(cache: Cache, readings: set<Reading>, held: set<Held>)

  const Start := State(Cache(map[], map[]), {}, {})

  /** The cache's time to live, and how long a goroutine takes at most from obtaining a table to its next store. */
  datatype Setting = Setting(ttl: int, delay: nat)

  datatype Event =
    | FinishScan(reading: Reading, now: int)
    | StoreTable(reading: Reading, now: int, victim: Option<Key>)
    | ReadTable(now: int)
    | StoreAnswer(key: Key, held: Held, now: int, victim: Option<Key>)
    | StoreOther(name: SystemKey, value: Value, now: int, victim: Option<Key>)
    | Cleanup(now: int)
    | Clear

  /** A step whose guard does not hold leaves the state alone. */
  ghost function Step(x: Setting, s: State, e: Event): State {
    match e
    case FinishScan(r, now) =>
      if r.at <= now <= r.at + x.delay then State(s.cache, s.readings + {r}, s.held + {Held(r.table, now)}) else s
    case StoreTable(r, now, victim) =>
      if r in s.readings && now <= r.at + x.delay
      then s.(cache := Put(s.cache, AllUserMetrics, Scanned(r.table), now, victim)) else s
    case ReadTable(now) =>
      (match Get(s.cache, AllUserMetrics, x.ttl, now)
       case Some(Scanned(table)) => s.(held := s.held + {Held(table, now)})
       case _ => s)
    case StoreAnswer(key, h, now, victim) =>
      if key.Other? || key.AllUserMetrics? || h !in s.held || now > h.at + x.delay then s
      else s.(cache := Put(s.cache, key, Answer(key, h.table), now, victim))
    case StoreOther(name, value, now, victim) =>
      if Fits(Other(name), value) then s.(cache := Put(s.cache, Other(name), value, now, victim)) else s
    case Cleanup(now) => s.(cache := Expire(s.cache, now))
    case Clear => s.(cache := Cache(map[], map[]))
  }

  ghost function Run(x: Setting, es: seq<Event>): State {
    if es == [] then Start else Step(x, Run(x, es[..|es| - 1]), es[|es| - 1])
  }

  function Bound(ttl: int): nat { if ttl < 0 then 0 else ttl }

  /** The table comes from a scan that is not older than `age` at time `now`. */
  ghost predicate FromScan(s: State, table: Table, now: int, age: int) {
    exists r | r in s.readings :: r.table == table && now - r.at <= age
  }

  /** The value answers the query for a table that is not older than `age` at time `now`. */
  ghost predicate Justified(s: State, key: Key, value: Value, now: int, age: int)
    requires !key.Other?
  {
    exists r | r in s.readings :: value == Answer(key, r.table) && now - r.at <= age
  }

  function StoreAge(x: Setting, key: Key): int {
    if key.AllUserMetrics? then x.delay else Bound(x.ttl) + 2 * x.delay
  }

  ghost predicate EntryOk(x: Setting, s: State, key: Key)
    requires key in s.cache.values
  {
    && key in s.cache.stamps && Fits(key, s.cache.values[key])
    && (!key.Other? ==> Justified(s, key, s.cache.values[key], s.cache.stamps[key], StoreAge(x, key)))
  }

  ghost predicate HeldOk(x: Setting, s: State, h: Held) { FromScan(s, h.table, h.at, Bound(x.ttl) + x.delay) }

  ghost predicate Invariant(x: Setting, s: State) {
    && s.cache.values.Keys == s.cache.stamps.Keys
    && (forall k | k in s.cache.values :: EntryOk(x, s, k))
    && (forall h | h in s.held :: HeldOk(x, s, h))
  }

  lemma MoreReadings(s: State, t: State, key: Key, value: Value, now: int, age: int)
    requires s.readings <= t.readings && !key.Other? && Justified(s, key, value, now, age)
    ensures Justified(t, key, value, now, age)
  {
    var r :| r in s.readings && value == Answer(key, r.table) && now - r.at <= age;
    assert r in t.readings;
  }

  /** What a store leaves of the invariant, when the new entry is in order. */
  lemma PutKeeps(x: Setting, s: State, key: Key, value: Value, now: int, victim: Option<Key>)
    requires Invariant(x, s) && Fits(key, value)
    requires key.Other? || Justified(s, key, value, now, StoreAge(x, key))
    ensures Invariant(x, s.(cache := Put(s.cache, key, value, now, victim)))
  {
    hide Justified, Fits;
    var t := s.(cache := Put(s.cache, key, value, now, victim));
    forall k | k in t.cache.values ensures EntryOk(x, t, k) {
      SameReadings(s, t);
      if k != key {
        assert EntryOk(x, s, k);
      }
    }
    HeldStay(x, s, t);
  }

  lemma SameReadings(s: State, t: State)
    requires s.readings == t.readings
    ensures forall key: Key, value, now, age | !key.Other? ::
              Justified(s, key, value, now, age) == Justified(t, key, value, now, age)
  {
  }

  lemma HeldStay(x: Setting, s: State, t: State)
    requires s.readings <= t.readings && forall h | h in s.held :: HeldOk(x, s, h)
    ensures forall h | h in s.held :: HeldOk(x, t, h)
  {
    forall h | h in s.held ensures HeldOk(x, t, h) {
      assert HeldOk(x, s, h);
      var r :| r in s.readings && r.table == h.table && h.at - r.at <= Bound(x.ttl) + x.delay;
      assert r in t.readings;
    }
  }

  lemma FinishScanKeeps(x: Setting, s: State, r: Reading, now: int)
    requires Invariant(x, s) && r.at <= now <= r.at + x.delay
    ensures Invariant(x, Step(x, s, FinishScan(r, now)))
  {
    var t := Step(x, s, FinishScan(r, now));
    HeldStay(x, s, t);
    assert r in t.readings;
    assert HeldOk(x, t, Held(r.table, now));
    forall k | k in t.cache.values ensures EntryOk(x, t, k) {
      assert EntryOk(x, s, k);
      if !k.Other? {
        MoreReadings(s, t, k, s.cache.values[k], s.cache.stamps[k], StoreAge(x, k));
      }
    }
  }

  lemma ReadTableKeeps(x: Setting, s: State, now: int)
    requires Invariant(x, s)
    ensures Invariant(x, Step(x, s, ReadTable(now)))
  {
    var t := Step(x, s, ReadTable(now));
    if t != s {
      var table := Get(s.cache, AllUserMetrics, x.ttl, now).value.table;
      assert EntryOk(x, s, AllUserMetrics);
      var stamp := s.cache.stamps[AllUserMetrics];
      var r :| r in s.readings && Scanned(table) == Answer(AllUserMetrics, r.table) && stamp - r.at <= x.delay;
      assert r.table == table && now - r.at <= Bound(x.ttl) + x.delay;
      assert HeldOk(x, t, Held(table, now));
      HeldStay(x, s, t);
      hide Justified;
      SameReadings(s, t);
      forall k | k in t.cache.values ensures EntryOk(x, t, k) {
        assert EntryOk(x, s, k);
      }
    }
  }

  lemma StoreAnswerKeeps(x: Setting, s: State, key: Key, h: Held, now: int, victim: Option<Key>)
    requires Invariant(x, s) && !key.Other? && !key.AllUserMetrics? && h in s.held && now <= h.at + x.delay
    ensures Invariant(x, Step(x, s, StoreAnswer(key, h, now, victim)))
  {
    assert HeldOk(x, s, h);
    var r :| r in s.readings && r.table == h.table && h.at - r.at <= Bound(x.ttl) + x.delay;
    assert now - r.at <= StoreAge(x, key) && Answer(key, h.table) == Answer(key, r.table);
    AnswerFits(key, h.table);
    PutKeeps(x, s, key, Answer(key, h.table), now, victim);
  }

  lemma StoreTableKeeps(x: Setting, s: State, r: Reading, now: int, victim: Option<Key>)
    requires Invariant(x, s) && r in s.readings && now <= r.at + x.delay
    ensures Invariant(x, Step(x, s, StoreTable(r, now, victim)))
  {
    assert Scanned(r.table) == Answer(AllUserMetrics, r.table);
    PutKeeps(x, s, AllUserMetrics, Scanned(r.table), now, victim);
  }

  lemma ExpireKeeps(x: Setting, s: State, now: int)
    requires Invariant(x, s)
    ensures Invariant(x, s.(cache := Expire(s.cache, now)))
  {
    hide Justified, Fits;
    var t := s.(cache := Expire(s.cache, now));
    SameReadings(s, t);
    HeldStay(x, s, t);
    forall k | k in t.cache.values ensures EntryOk(x, t, k) {
      assert EntryOk(x, s, k);
    }
  }

  lemma StepKeeps(x: Setting, s: State, e: Event)
    requires Invariant(x, s)
    ensures Invariant(x, Step(x, s, e))
  {
    hide Invariant, Put, Expire, Get, Answer;
    match e
    case FinishScan(r, now) => if r.at <= now <= r.at + x.delay { FinishScanKeeps(x, s, r, now); }
    case StoreTable(r, now, victim) => if r in s.readings && now <= r.at + x.delay { StoreTableKeeps(x, s, r, now, victim); }
    case ReadTable(now) => ReadTableKeeps(x, s, now);
    case StoreAnswer(key, h, now, victim) =>
      if !key.Other? && !key.AllUserMetrics? && h in s.held && now <= h.at + x.delay {
        StoreAnswerKeeps(x, s, key, h, now, victim);
      }
    case StoreOther(name, value, now, victim) =>
      if Fits(Other(name), value) {
        PutKeeps(x, s, Other(name), value, now, victim);
      }
    case Cleanup(now) => ExpireKeeps(x, s, now);
    case Clear => ClearKeeps(x, s);
  }

  lemma ClearKeeps(x: Setting, s: State)
    requires Invariant(x, s)
    ensures Invariant(x, s.(cache := Cache(map[], map[])))
  {
    HeldStay(x, s, s.(cache := Cache(map[], map[])));
  }

  lemma {:induction false} RunKeeps(x: Setting, es: seq<Event>)
    ensures Invariant(x, Run(x, es))
  {
    if es != [] {
      hide Invariant, Step;
      RunKeeps(x, es[..|es| - 1]);
      StepKeeps(x, Run(x, es[..|es| - 1]), es[|es| - 1]);
    } else {
      StartIsFine(x);
    }
  }

  lemma StartIsFine(x: Setting)
    ensures Invariant(x, Start)
  {
  }

  /**
    A cached answer is the total over one real scan that is at most two times to live old,
    plus what two goroutines may have lost between obtaining a table and storing their result.
  */
  lemma AnswersAreFresh(x: Setting, es: seq<Event>, key: Key, now: int)
    requires !key.Other? && Get(Run(x, es).cache, key, x.ttl, now).Some?
    ensures var s := Run(x, es);
            Justified(s, key, Get(s.cache, key, x.ttl, now).value, now,
                      if key.AllUserMetrics? then Bound(x.ttl) + x.delay else 2 * Bound(x.ttl) + 2 * x.delay)
    ensures var s := Run(x, es);
            exists r | r in s.readings ::
              && Means(key, Get(s.cache, key, x.ttl, now).value, r.table)
              && now - r.at <= if key.AllUserMetrics? then Bound(x.ttl) + x.delay else 2 * Bound(x.ttl) + 2 * x.delay
  {
    hide Run;
    RunKeeps(x, es);
    var s := Run(x, es);
    var age := if key.AllUserMetrics? then Bound(x.ttl) + x.delay else 2 * Bound(x.ttl) + 2 * x.delay;
    var value, stamp := s.cache.values[key], s.cache.stamps[key];
    assert EntryOk(x, s, key);
    var r :| r in s.readings && value == Answer(key, r.table) && stamp - r.at <= StoreAge(x, key);
    assert now - r.at <= age;
    AnswerIs(key, r.table);
    hide Means, Answer;
    assert r in s.readings && Means(key, value, r.table) && now - r.at <= age;
  }

  /** An answer computed just now, from a table that was scanned or hit, is at most one time to live old. */
  lemma TablesAreFresh(x: Setting, es: seq<Event>, h: Held)
    requires h in Run(x, es).held
    ensures FromScan(Run(x, es), h.table, h.at, Bound(x.ttl) + x.delay)
  {
    hide Run;
    RunKeeps(x, es);
    assert HeldOk(x, Run(x, es), h);
  }

  /** The getters' type assertions never fail. */
  lemma {:induction false} CacheIsTyped(x: Setting, es: seq<Event>)
    ensures Typed(Run(x, es).cache)
  {
    hide Run;
    RunKeeps(x, es);
    forall k | k in Run(x, es).cache.values ensures Fits(k, Run(x, es).cache.values[k]) {
      assert EntryOk(x, Run(x, es), k);
    }
  }

  /** The steps of one undisturbed getter call that missed its own entry. */
  function GetterSteps(c: Cache, key: Key, ttl: int, t: Clock, scan: Scan,
                       first: Option<Key>, second: Option<Key>): seq<Event> {
    var reading := Reading(scan.table, t.tableLookup);
    if Get(c, AllUserMetrics, ttl, t.tableLookup).Some? then
      [ReadTable(t.tableLookup), StoreAnswer(key, Held(FetchedTable(c, ttl, t, scan), t.tableLookup), t.store, second)]
    else
      [FinishScan(reading, t.tableStore)]
      + (if scan.fallback then [] else [StoreTable(reading, t.tableStore, first)])
      + [StoreAnswer(key, Held(scan.table, t.tableStore), t.store, second)]
  }

  ghost function After(x: Setting, s: State, es: seq<Event>): State
    decreases |es|
  {
    if es == [] then s else After(x, Step(x, s, es[0]), es[1..])
  }

  predicate InTime(t: Clock, delay: nat) {
    t.tableLookup <= t.tableStore <= t.tableLookup + delay && t.store <= t.tableLookup + delay
  }

  /** A call of a getter is a run of these steps, so its answers are covered by the bound. */
  lemma GettersAreRuns(x: Setting, s: State, after: Cache, key: Key, t: Clock, scan: Scan,
                       first: Option<Key>, second: Option<Key>)
    requires !key.Other? && !key.AllUserMetrics? && Typed(s.cache) && InTime(t, x.delay)
    requires AskedFresh(s.cache, after, key, x.ttl, t, scan, first, second)
    ensures After(x, s, GetterSteps(s.cache, key, x.ttl, t, scan, first, second)).cache == after
  {
    hide Put, Answer, Evicts;
    var es := GetterSteps(s.cache, key, x.ttl, t, scan, first, second);
    var one := Step(x, s, es[0]);
    var two := Step(x, one, es[1]);
    if |es| == 2 {
      assert After(x, s, es) == After(x, one, es[1..]) == After(x, two, es[2..]) == two;
    } else {
      var three := Step(x, two, es[2]);
      assert es[1..][1..] == es[2..] && es[2..][1..] == es[3..];
      assert After(x, s, es) == After(x, one, es[1..]) == After(x, two, es[2..]) == After(x, three, es[3..]) == three;
    }
  }

  // ------------------------------------------------------------ hits

  /** What a key was stored with, and when. */
  datatype Entry = Entry(value: Value, at: int)

  /** The last store of the key, unless the entry was evicted, expired or cleared since. */
  ghost function LastStore(x: Setting, es: seq<Event>, key: Key): Option<Entry> {
    if es == [] then None
    else
      var before := LastStore(x, es[..|es| - 1], key);
      var st := StoreOf(x, Run(x, es[..|es| - 1]), es[|es| - 1]);
      if st.Some? then
        if st.value.key == key then Some(Entry(st.value.value, st.value.now))
        else if st.value.victim == Some(key) then None else before
      else
        match es[|es| - 1]
        case Cleanup(now) => if before.Some? && now - before.value.at > 300 * SECOND then None else before
        case Clear => None
        case _ => before
  }

  /** What a step does to the cache: a store, a cleanup, a clear, or nothing. */
  lemma StepStores(x: Setting, s: State, e: Event)
    ensures var st := StoreOf(x, s, e);
            Step(x, s, e).cache
            == if st.Some? then Put(s.cache, st.value.key, st.value.value, st.value.now, st.value.victim)
               else if e.Cleanup? then Expire(s.cache, e.now)
               else if e.Clear? then Cache(map[], map[])
               else s.cache
  {
    hide Put, Expire, Answer, Fits, Get;
  }

  /** The cache agrees with what is known of one key. */
  predicate Agrees(c: Cache, key: Key, last: Option<Entry>) {
    && (key in c.values <==> last.Some?) && (key in c.stamps <==> last.Some?)
    && (last.Some? ==> c.values[key] == last.value.value && c.stamps[key] == last.value.at)
  }

  lemma PutAgrees(c: Cache, st: Store, key: Key, before: Option<Entry>)
    requires Agrees(c, key, before)
    ensures Agrees(Put(c, st.key, st.value, st.now, st.victim), key,
                   if st.key == key then Some(Entry(st.value, st.now)) else if st.victim == Some(key) then None else before)
  {
  }

  lemma ExpireAgrees(c: Cache, now: int, key: Key, before: Option<Entry>)
    requires Agrees(c, key, before)
    ensures Agrees(Expire(c, now), key, if before.Some? && now - before.value.at > 300 * SECOND then None else before)
  {
  }

  lemma {:induction false} EntryIs(x: Setting, es: seq<Event>, key: Key)
    ensures Agrees(Run(x, es).cache, key, LastStore(x, es, key))
  {
    if es != [] {
      var earlier, e := es[..|es| - 1], es[|es| - 1];
      EntryIs(x, earlier, key);
      var s, before := Run(x, earlier), LastStore(x, earlier, key);
      StepStores(x, s, e);
      hide Step, StoreOf, Put, Expire, Agrees;
      if StoreOf(x, s, e).Some? {
        PutAgrees(s.cache, StoreOf(x, s, e).value, key, before);
      } else if e.Cleanup? {
        ExpireAgrees(s.cache, e.now, key, before);
      }
      NoEntries(key);
    } else {
      NoEntries(key);
    }
  }

  lemma NoEntries(key: Key)
    ensures Agrees(Cache(map[], map[]), key, None)
  {
  }

  /** In every run a key is answered from the cache exactly if its last store is still there and at most the time to live old. */
  lemma HitIff(x: Setting, es: seq<Event>, key: Key, now: int)
    ensures var last := LastStore(x, es, key);
            Get(Run(x, es).cache, key, x.ttl, now)
            == if last.Some? && now - last.value.at <= x.ttl then Some(last.value.value) else None
  {
    EntryIs(x, es, key);
    hide Run, LastStore;
  }

  /**
    A store evicts exactly when ten thousand entries are cached and one of them is older than
    the store; what is evicted is at least as old as everything that stays.
  */
  lemma OldestGoes(x: Setting, es: seq<Event>, e: Event)
    requires Faithful(x, es + [e]) && StoreOf(x, Run(x, es), e).Some?
    ensures var c, st := Run(x, es).cache, StoreOf(x, Run(x, es), e).value;
            && (st.victim.Some? <==> |c.values| >= 10000 && exists k | k in c.stamps :: c.stamps[k] < st.now)
            && (st.victim.Some? ==> st.victim.value in c.stamps
                                    && forall k | k in c.stamps :: c.stamps[st.victim.value] <= c.stamps[k])
  {
    assert (es + [e])[|es|] == e && (es + [e])[..|es|] == es;
    assert Fair(x, Run(x, es), e);
    hide StoreOf, Run;
  }

  // ------------------------------------------------------------ the size

  lemma SizeWith(m: map<Key, Value>, key: Key, value: Value)
    ensures |m[key := value]| == |m| + (if key in m then 0 else 1)
  {
    assert m[key := value].Keys == m.Keys + {key};
    assert |m.Keys + {key}| == |m.Keys| + (if key in m.Keys then 0 else 1);
  }

  lemma SizeWithout(m: map<Key, Value>, key: Key)
    requires key in m
    ensures |m - {key}| == |m| - 1
  {
    assert (m - {key}).Keys == m.Keys - {key};
  }

  /** The entry count after a store: one more for a new key, one less for an eviction. */
  lemma SizeAfterPut(c: Cache, key: Key, value: Value, now: int, victim: Option<Key>)
    requires c.values.Keys == c.stamps.Keys && Evicts(c, now, victim)
    ensures |Put(c, key, value, now, victim).values|
         == |c.values| - (if victim.Some? then 1 else 0) + (if key in Without(c, victim).values then 0 else 1)
  {
    if victim.Some? {
      SizeWithout(c.values, victim.value);
    }
    SizeWith(Without(c, victim).values, key, value);
  }

  /** A store of the run: the entry it writes, its time and its victim. None for other steps, and for guards that fail. */
  datatype Store = Store(key: Key, value: Value, now: int, victim: Option<Key>)

  ghost function StoreOf(x: Setting, s: State, e: Event): Option<Store> {
    match e
    case StoreTable(r, now, victim) =>
      if r in s.readings && now <= r.at + x.delay then Some(Store(AllUserMetrics, Scanned(r.table), now, victim)) else None
    case StoreAnswer(key, h, now, victim) =>
      if key.Other? || key.AllUserMetrics? || h !in s.held || now > h.at + x.delay then None
      else Some(Store(key, Answer(key, h.table), now, victim))
    case StoreOther(name, value, now, victim) =>
      if Fits(Other(name), value) then Some(Store(Other(name), value, now, victim)) else None
    case _ => None
  }

  /** A store in this state evicts what the code can evict. */
  ghost predicate Fair(x: Setting, s: State, e: Event) {
    var st := StoreOf(x, s, e);
    st.Some? ==> Evicts(s.cache, st.value.now, st.value.victim)
  }

  ghost predicate Faithful(x: Setting, es: seq<Event>) {
    forall n | 0 <= n < |es| :: Fair(x, Run(x, es[..n]), es[n])
  }

  /** A full cache, a new key, and no entry that is older than the store. */
  ghost predicate Overflows(c: Cache, st: Store) {
    |c.values| >= MAX_CACHE_SIZE && st.key !in c.values && forall k | k in c.stamps :: c.stamps[k] >= st.now
  }

  ghost predicate OverflowsAt(x: Setting, es: seq<Event>, n: nat) {
    n < |es| && var st := StoreOf(x, Run(x, es[..n]), es[n]); st.Some? && Overflows(Run(x, es[..n]).cache, st.value)
  }

  ghost predicate BoundedAt(x: Setting, es: seq<Event>, n: nat)
    requires n <= |es|
  {
    |Run(x, es[..n]).cache.values| <= MAX_CACHE_SIZE
  }

  /** One step exceeds the bound exactly if it is such a store. */
  lemma StepBoundedIff(x: Setting, s: State, e: Event)
    requires s.cache.values.Keys == s.cache.stamps.Keys && |s.cache.values| <= MAX_CACHE_SIZE
    requires Fair(x, s, e)
    ensures |Step(x, s, e).cache.values| > MAX_CACHE_SIZE
       <==> StoreOf(x, s, e).Some? && Overflows(s.cache, StoreOf(x, s, e).value)
  {
    var st := StoreOf(x, s, e);
    hide Answer, Put, Expire;
    if st.Some? {
      assert Step(x, s, e).cache == Put(s.cache, st.value.key, st.value.value, st.value.now, st.value.victim);
      SizeAfterPut(s.cache, st.value.key, st.value.value, st.value.now, st.value.victim);
    } else if e.Cleanup? {
      ExpireShrinks(s.cache, e.now);
    }
  }

  lemma ExpireShrinks(c: Cache, now: int)
    ensures |Expire(c, now).values| <= |c.values|
  {
    var kept := Expire(c, now).values;
    assert |kept| == |kept.Keys| && |c.values| == |c.values.Keys|;
    SmallerSet(kept.Keys, c.values.Keys);
  }

  /** In every run, the bound is kept at all times exactly if no store of the run overflows. */
  lemma {:induction false} SizeIsBoundedIff(x: Setting, es: seq<Event>)
    requires Faithful(x, es)
    ensures (forall n: nat | n <= |es| :: BoundedAt(x, es, n)) <==> forall n: nat | n < |es| :: !OverflowsAt(x, es, n)
  {
    forall n: nat | n < |es| && BoundedAt(x, es, n) ensures BoundedAt(x, es, n + 1) <==> !OverflowsAt(x, es, n) {
      BoundedNext(x, es, n);
    }
    hide BoundedAt, OverflowsAt, Faithful;
    if forall n: nat | n < |es| :: !OverflowsAt(x, es, n) {
      EmptyIsBounded(x, es);
      forall n: nat | n <= |es| ensures BoundedAt(x, es, n) {
        BoundedByInduction(x, es, n);
      }
    }
    if forall n: nat | n <= |es| :: BoundedAt(x, es, n) {
      forall n: nat | n < |es| ensures !OverflowsAt(x, es, n) {
        assert BoundedAt(x, es, n) && BoundedAt(x, es, n + 1);
      }
    }
  }

  lemma EmptyIsBounded(x: Setting, es: seq<Event>)
    ensures BoundedAt(x, es, 0)
  {
    assert es[..0] == [];
  }

  lemma {:induction false} BoundedByInduction(x: Setting, es: seq<Event>, n: nat)
    requires n <= |es| && BoundedAt(x, es, 0)
    requires forall k: nat | k < |es| && BoundedAt(x, es, k) :: BoundedAt(x, es, k + 1)
    ensures BoundedAt(x, es, n)
  {
    if n > 0 {
      hide BoundedAt;
      BoundedByInduction(x, es, n - 1);
      assert BoundedAt(x, es, n - 1);
    }
  }

  lemma BoundedNext(x: Setting, es: seq<Event>, n: nat)
    requires Faithful(x, es) && n < |es| && BoundedAt(x, es, n)
    ensures BoundedAt(x, es, n + 1) <==> !OverflowsAt(x, es, n)
  {
    assert es[..n + 1][..n] == es[..n];
    RunKeeps(x, es[..n]);
    hide Step, StoreOf, Overflows, Evicts, EntryOk, HeldOk;
    StepBoundedIff(x, Run(x, es[..n]), es[n]);
  }

  /** So it is kept if every store of a new key finds an older entry or room. */
  lemma SizeIsBounded(x: Setting, es: seq<Event>)
    requires Faithful(x, es)
    requires forall n: nat | n < |es| && StoreOf(x, Run(x, es[..n]), es[n]).Some? ::
               var c, st := Run(x, es[..n]).cache, StoreOf(x, Run(x, es[..n]), es[n]).value;
               |c.values| < MAX_CACHE_SIZE || exists k | k in c.stamps :: c.stamps[k] < st.now
    ensures |Run(x, es).cache.values| <= MAX_CACHE_SIZE
  {
    forall n: nat | n < |es| ensures !OverflowsAt(x, es, n) {
    }
    SizeIsBoundedIff(x, es);
    assert es[..|es|] == es && BoundedAt(x, es, |es|);
  }

  /** The scan of a machine on which nobody has a process. */
  const Nobody := Reading(map[], 0)

  /** A getter stores its answer about user number `n`, at the time of the scan. */
  function BurstStore(n: nat): Event { StoreAnswer(UserCPU(Uid(1000 + n)), Held(map[], 0), 0, None) }

  /** One scan, and the questions about `k` different users, all within one reading of the clock. */
  function Burst(k: nat): seq<Event> { [FinishScan(Nobody, 0)] + seq(k, (n: nat) => BurstStore(n)) }

  lemma FaithfulMore(x: Setting, es: seq<Event>, e: Event)
    requires Faithful(x, es) && Fair(x, Run(x, es), e)
    ensures Faithful(x, es + [e])
  {
    hide Fair, Run;
    forall n | 0 <= n < |es| + 1 ensures Fair(x, Run(x, (es + [e])[..n]), (es + [e])[n]) {
      if n < |es| {
        assert (es + [e])[..n] == es[..n];
      } else {
        assert (es + [e])[..n] == es;
      }
    }
  }

  lemma BurstNext(x: Setting, k: nat)
    ensures Burst(k + 1) == Burst(k) + [BurstStore(k)]
    ensures Run(x, Burst(k + 1)) == Step(x, Run(x, Burst(k)), BurstStore(k))
  {
    var es := Burst(k) + [BurstStore(k)];
    assert Burst(k + 1) == es && es[..|es| - 1] == Burst(k);
    hide Step;
  }

  /** The table of the scan is in hand, and `k` users have an entry, all stored at time 0. */
  ghost predicate StoredAtOnce(s: State, k: nat) {
    && Held(map[], 0) in s.held && |s.cache.values| == k && s.cache.values.Keys == s.cache.stamps.Keys
    && forall y | y in s.cache.stamps :: s.cache.stamps[y] == 0 && y.UserCPU? && y.uid.id < 1000 + k
  }

  lemma NobodyIsScanned(x: Setting)
    ensures StoredAtOnce(Run(x, Burst(0)), 0) && Faithful(x, Burst(0))
  {
    assert Burst(0) == [FinishScan(Nobody, 0)] && Burst(0)[..0] == [];
  }

  lemma AnotherStays(x: Setting, s: State, k: nat)
    requires StoredAtOnce(s, k)
    ensures Fair(x, s, BurstStore(k)) && StoredAtOnce(Step(x, s, BurstStore(k)), k + 1)
  {
    var key := UserCPU(Uid(1000 + k));
    SizeWith(s.cache.values, key, Answer(key, map[]));
  }

  /** They all stay, however many they are, and each of them evicts what the code would: nothing. */
  lemma {:induction false} BurstStays(x: Setting, k: nat)
    ensures StoredAtOnce(Run(x, Burst(k)), k) && Faithful(x, Burst(k))
  {
    if k == 0 {
      NobodyIsScanned(x);
    } else {
      BurstStays(x, k - 1);
      BurstNext(x, k - 1);
      hide Burst, BurstStore, Run, Step, Faithful, Fair, StoredAtOnce;
      AnotherStays(x, Run(x, Burst(k - 1)), k - 1);
      FaithfulMore(x, Burst(k - 1), BurstStore(k - 1));
    }
  }

  /** A run that exceeds the bound: ten thousand users and one more, asked about between two ticks of the clock. */
  lemma BurstExceeds(x: Setting)
    ensures var es := Burst(MAX_CACHE_SIZE + 1); Faithful(x, es) && |Run(x, es).cache.values| > MAX_CACHE_SIZE
  {
    hide Run, Burst, Faithful;
    BurstStays(x, MAX_CACHE_SIZE + 1);
  }
}
