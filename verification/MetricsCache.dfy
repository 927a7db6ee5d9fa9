/**
  The collector's cache: process scans are cached, and so are the totals computed from a
  cached scan. Both levels use the same time to live.
*/
module MetricsCache {
  import opened Common

  const MAX_CACHE_SIZE := 10000

  /** What one process scan found for a user, as far as the totals need it. */
  datatype UserMetrics = UserMetrics(cpu: real, memory: nat, processes: nat, limited: bool)

  type Table = map<Uid, UserMetrics>

  /** The readings about the whole machine that are cached, one entry each. */
  datatype SystemKey = TotalCores | TotalCPUUsage | MemoryUsage | TotalMemory | CachedMemory | SystemUnderLoad

  /** The cache keys. `limited` picks the variant for users that pass the filters. */
  datatype Key =
    | AllUserMetrics
    | UsersCPU(limited: bool)
    | UsersMemory(limited: bool)
    | Users(limited: bool)
    | UserCPU(uid: Uid)
    | UserMemory(uid: Uid)
    | UserProcesses(uid: Uid)
    | Other(name: SystemKey)

  datatype Value =
    | Scanned(table: Table)
    | Percent(cpu: real)
    | Megabytes(mb: real)
    | Bytes(memory: nat)
    | Uids(uids: set<Uid>)
    | Count(n: nat)
    | Flag(on: bool)

  // ------------------------------------------------------------ totals of a scan

  datatype Totals = Totals(cpu: real, memory: nat)

  predicate Chosen(m: UserMetrics, limited: bool) { limited ==> m.limited }

  function Plus(table: Table, limited: bool): (Totals, Uid) -> Totals {
    (t: Totals, u: Uid) =>
      if u in table && Chosen(table[u], limited) then Totals(t.cpu + table[u].cpu, t.memory + table[u].memory) else t
  }

  ghost function TotalsOf(table: Table, users: set<Uid>, limited: bool): Totals {
    Fold(users, Totals(0.0, 0), Plus(table, limited))
  }

  /** The totals do not depend on the order in which the users are visited. */
  lemma TotalsAnyOrder(table: Table, users: set<Uid>, u: Uid, limited: bool)
    requires u in users
    ensures TotalsOf(table, users, limited) == Plus(table, limited)(TotalsOf(table, users - {u}, limited), u)
  {
    FoldAnyOrder(users, Totals(0.0, 0), Plus(table, limited), u);
  }

  function ChosenUsers(table: Table, limited: bool): set<Uid> {
    set u | u in table && Chosen(table[u], limited)
  }

  /** The answer to a query, computed from one scan. */
  ghost function Answer(key: Key, table: Table): Value
    requires !key.Other?
  {
    match key
    case AllUserMetrics => Scanned(table)
    case UsersCPU(limited) => Percent(TotalsOf(table, table.Keys, limited).cpu)
    case UsersMemory(limited) => Bytes(TotalsOf(table, table.Keys, limited).memory)
    case Users(limited) => Uids(ChosenUsers(table, limited))
    case UserCPU(uid) => Percent(if uid in table then table[uid].cpu else 0.0)
    case UserMemory(uid) => Bytes(if uid in table then table[uid].memory else 0)
    case UserProcesses(uid) => Count(if uid in table then table[uid].processes else 0)
  }

  // ------------------------------------------------------------ what the answers mean

  /** The users of a scan, or only those that pass the filters. */
  function UsersOf(table: Table, limited: bool): set<Uid> {
    if limited then set u | u in table && table[u].limited else table.Keys
  }

  ghost function SumCPU(table: Table, users: set<Uid>): real
    requires users <= table.Keys
  {
    Fold(users, 0.0, (t: real, u: Uid) => t + if u in table then table[u].cpu else 0.0)
  }

  ghost function SumMemory(table: Table, users: set<Uid>): nat
    requires users <= table.Keys
  {
    Fold(users, 0, (t: nat, u: Uid) => AddMemory(t, table, u))
  }

  function AddMemory(t: nat, table: Table, u: Uid): nat { t + if u in table then table[u].memory else 0 }

  /** The value is the answer of the query for that scan. */
  ghost predicate Means(key: Key, value: Value, table: Table) {
    match key
    case AllUserMetrics => value == Scanned(table)
    case UsersCPU(limited) => value == Percent(SumCPU(table, UsersOf(table, limited)))
    case UsersMemory(limited) => value == Bytes(SumMemory(table, UsersOf(table, limited)))
    case Users(limited) => value == Uids(UsersOf(table, limited))
    case UserCPU(uid) => value == Percent(SumCPU(table, {uid} * table.Keys))
    case UserMemory(uid) => value == Bytes(SumMemory(table, {uid} * table.Keys))
    case UserProcesses(uid) => value.Count? && if uid in table then value.n == table[uid].processes else value.n == 0
    case Other(_) => false
  }

  /** Adding up the chosen users is adding up exactly the users that pass. */
  lemma {:induction false} TotalsAre(table: Table, users: set<Uid>, limited: bool)
    requires users <= table.Keys
    ensures var some := users * UsersOf(table, limited);
            TotalsOf(table, users, limited) == Totals(SumCPU(table, some), SumMemory(table, some))
  {
    var some := users * UsersOf(table, limited);
    if users == {} {
      assert some == {};
    } else {
      var u :| u in users;
      TotalsAre(table, users - {u}, limited);
      TotalsAnyOrder(table, users, u, limited);
      hide TotalsOf, Fold;
      if u in some {
        assert (users - {u}) * UsersOf(table, limited) == some - {u};
        FoldAnyOrder(some, 0.0, (t: real, v: Uid) => t + if v in table then table[v].cpu else 0.0, u);
        FoldAnyOrder(some, 0, (t: nat, v: Uid) => AddMemory(t, table, v), u);
      } else {
        assert (users - {u}) * UsersOf(table, limited) == some;
      }
    }
  }

  lemma SumOfOne(table: Table, uid: Uid)
    ensures SumCPU(table, {uid} * table.Keys) == if uid in table then table[uid].cpu else 0.0
    ensures SumMemory(table, {uid} * table.Keys) == if uid in table then table[uid].memory else 0
  {
    if uid in table {
      assert {uid} * table.Keys == {uid} && {uid} - {uid} == {};
      FoldAnyOrder({uid}, 0.0, (t: real, v: Uid) => t + if v in table then table[v].cpu else 0.0, uid);
      FoldAnyOrder({uid}, 0, (t: nat, v: Uid) => AddMemory(t, table, v), uid);
    } else {
      assert {uid} * table.Keys == {};
    }
  }

  /** The computed answer is the one meant; a user outside the filters adds nothing to a filtered one. */
  lemma AnswerIs(key: Key, table: Table)
    requires !key.Other?
    ensures Means(key, Answer(key, table), table)
  {
    match key
    case UsersCPU(limited) =>
      TotalsAre(table, table.Keys, limited);
      assert table.Keys * UsersOf(table, limited) == UsersOf(table, limited);
    case UsersMemory(limited) =>
      TotalsAre(table, table.Keys, limited);
      assert table.Keys * UsersOf(table, limited) == UsersOf(table, limited);
    case UserCPU(uid) => SumOfOne(table, uid);
    case UserMemory(uid) => SumOfOne(table, uid);
    case _ =>
  }

  // ------------------------------------------------------------ the cache

  datatype Cache = Cache(values: map<Key, Value>, stamps: map<Key, int>)

  /** `getFromCache`. */
  function Get(c: Cache, key: Key, ttl: int, now: int): Option<Value> {
    if key !in c.values || key !in c.stamps || now - c.stamps[key] > ttl then None else Some(c.values[key])
  }

  /** Which entry a full cache gives up: one of the oldest, if any is older than `now`. */
  ghost predicate Evicts(c: Cache, now: int, victim: Option<Key>) {
    if |c.values| < MAX_CACHE_SIZE then victim.None?
    else if victim.None? then forall k | k in c.stamps :: c.stamps[k] >= now
    else victim.value in c.stamps && c.stamps[victim.value] < now
         && forall k | k in c.stamps :: c.stamps[victim.value] <= c.stamps[k]
  }

  function Without(c: Cache, victim: Option<Key>): Cache {
    if victim.None? then c else Cache(c.values - {victim.value}, c.stamps - {victim.value})
  }

  /** `setInCache`, once the victim is known. */
  function Put(c: Cache, key: Key, value: Value, now: int, victim: Option<Key>): Cache {
    var kept := Without(c, victim);
    Cache(kept.values[key := value], kept.stamps[key := now])
  }

  /** The cache part of `cleanupCache`. */
  function Expire(c: Cache, now: int): Cache {
    var kept := set k | k in c.stamps && now - c.stamps[k] <= MAX_AGE;
    Cache(map k | k in c.values && (k in kept || k !in c.stamps) :: c.values[k], map k | k in kept :: c.stamps[k])
  }

  /** Every value has the type the getter of its key asserts. */
  predicate Fits(key: Key, value: Value) {
    match key
    case AllUserMetrics => value.Scanned?
    case UsersCPU(_) => value.Percent?
    case UsersMemory(_) => value.Bytes?
    case Users(_) => value.Uids?
    case UserCPU(_) => value.Percent?
    case UserMemory(_) => value.Bytes?
    case UserProcesses(_) => value.Count?
    case Other(TotalCores) => value.Count?
    case Other(TotalCPUUsage) => value.Percent?
    case Other(SystemUnderLoad) => value.Flag?
    case Other(_) => value.Megabytes?
  }

  ghost predicate Typed(c: Cache) { forall k | k in c.values :: Fits(k, c.values[k]) }

  /** The clock readings of one getter: the lookups, and the two stores. */
  datatype Clock = Clock(lookup: int, tableLookup: int, tableStore: int, store: int)

  /** What a scan would find now, and whether it had to fall back to reading `/proc`. */
  datatype Scan = Scan(table: Table, fallback: bool)

  /** The cache after `GetAllUserMetrics`. */
  function Fetched(c: Cache, ttl: int, t: Clock, scan: Scan, victim: Option<Key>): Cache {
    if Get(c, AllUserMetrics, ttl, t.tableLookup).Some? || scan.fallback then c
    else Put(c, AllUserMetrics, Scanned(scan.table), t.tableStore, victim)
  }

  function FetchedTable(c: Cache, ttl: int, t: Clock, scan: Scan): Table {
    match Get(c, AllUserMetrics, ttl, t.tableLookup)
    case Some(Scanned(table)) => table
    case _ => scan.table
  }

  /** What a getter for `key` leaves in the cache and returns, with the entries it evicted on the way. */
  ghost predicate Asked(before: Cache, after: Cache, key: Key, ttl: int, t: Clock, scan: Scan, answer: Value)
    requires !key.Other?
  {
    match Get(before, key, ttl, t.lookup)
    case Some(v) => after == before && answer == v
    case None =>
      exists first, second ::
        && AskedFresh(before, after, key, ttl, t, scan, first, second)
        && answer == Answer(key, FetchedTable(before, ttl, t, scan))
  }

  ghost predicate AskedFresh(before: Cache, after: Cache, key: Key, ttl: int, t: Clock, scan: Scan,
                             first: Option<Key>, second: Option<Key>)
    requires !key.Other?
  {
    var fetched := Fetched(before, ttl, t, scan, first);
    && (fetched != before ==> Evicts(before, t.tableStore, first))
    && Evicts(fetched, t.store, second)
    && after == Put(fetched, key, Answer(key, FetchedTable(before, ttl, t, scan)), t.store, second)
  }

  /** The entry is there and at most the time to live old. */
  predicate Live(c: Cache, key: Key, ttl: int, now: int) {
    key in c.values && key in c.stamps && now - c.stamps[key] <= ttl
  }

  /**
    What a getter returns: its live entry, or else the answer for the live table or a new scan,
    which it stores. With room left it takes no entry away.
  */
  lemma AskedIs(before: Cache, after: Cache, key: Key, ttl: int, t: Clock, scan: Scan, answer: Value)
    requires !key.Other? && !key.AllUserMetrics? && Typed(before) && Asked(before, after, key, ttl, t, scan, answer)
    ensures if Live(before, key, ttl, t.lookup) then after == before && answer == before.values[key]
            else
              && Means(key, answer, if Live(before, AllUserMetrics, ttl, t.tableLookup) then before.values[AllUserMetrics].table
                                    else scan.table)
              && key in after.values && key in after.stamps && after.values[key] == answer && after.stamps[key] == t.store
    ensures before.values.Keys == before.stamps.Keys && |before.values| + 1 < 10000 ==>
              before.values.Keys <= after.values.Keys
  {
    if !Live(before, key, ttl, t.lookup) {
      assert Get(before, key, ttl, t.lookup).None?;
      var first, second :| && AskedFresh(before, after, key, ttl, t, scan, first, second)
                           && answer == Answer(key, FetchedTable(before, ttl, t, scan));
      AnswerIs(key, FetchedTable(before, ttl, t, scan));
      FetchedFits(before, ttl, t, scan, first);
      hide Means, Answer, Evicts;
    }
  }

  lemma FetchedFits(c: Cache, ttl: int, t: Clock, scan: Scan, victim: Option<Key>)
    requires Typed(c) && (Fetched(c, ttl, t, scan, victim) != c ==> Evicts(c, t.tableStore, victim))
    ensures var fetched := Fetched(c, ttl, t, scan, victim);
            && |fetched.values| <= |c.values| + 1
            && (|c.values| < 10000 ==> c.values.Keys <= fetched.values.Keys)
            && (Live(c, AllUserMetrics, ttl, t.tableLookup) ==>
                  c.values[AllUserMetrics].Scanned?
                  && FetchedTable(c, ttl, t, scan) == c.values[AllUserMetrics].table)
            && (!Live(c, AllUserMetrics, ttl, t.tableLookup) ==> FetchedTable(c, ttl, t, scan) == scan.table)
  {
    var fetched := Fetched(c, ttl, t, scan, victim);
    if fetched != c {
      OneMoreEntry(c, Scanned(scan.table), t.tableStore, victim);
    }
  }

  lemma OneMoreEntry(c: Cache, value: Value, now: int, victim: Option<Key>)
    ensures |Put(c, AllUserMetrics, value, now, victim).values| <= |c.values| + 1
  {
    var after := Put(c, AllUserMetrics, value, now, victim).values;
    assert |after| == |after.Keys| && |c.values| == |c.values.Keys|;
    SmallerSet(after.Keys, c.values.Keys + {AllUserMetrics});
  }

  class Collector {
    var cache: map<Key, Value>
    var cacheTimestamps: map<Key, int>

    function View(): Cache
      reads this
    {
      Cache(cache, cacheTimestamps)
    }

    constructor ()
      ensures View() == Cache(map[], map[])
    {
      cache, cacheTimestamps := map[], map[];
    }

    method GetFromCache(key: Key, ttl: int, now: int) returns (r: Option<Value>)
      ensures r == Get(View(), key, ttl, now)
    {
      if key !in cache {
        return None;
      }
      var val := cache[key];
      if key !in cacheTimestamps {
        return None;
      }
      if now - cacheTimestamps[key] > ttl {
        return None;
      }
      return Some(val);
    }

    /** The search for the entry to evict from a full cache. */
    method Oldest(now: int) returns (oldest: Option<Key>)
      requires |cache| >= MAX_CACHE_SIZE
      ensures Evicts(View(), now, oldest)
    {
      oldest := None;
      var oldestTime := now;
      var todo := cacheTimestamps.Keys;
      while todo != {}
        invariant todo <= cacheTimestamps.Keys && oldestTime <= now
        invariant forall k | k in cacheTimestamps.Keys - todo :: oldestTime <= cacheTimestamps[k]
        invariant oldest.None? ==> oldestTime == now
        invariant oldest.Some? ==>
          oldest.value in cacheTimestamps && cacheTimestamps[oldest.value] == oldestTime && oldestTime < now
        decreases todo
      {
        var k := Next(todo);
        todo := todo - {k};
        if cacheTimestamps[k] < oldestTime {
          oldestTime := cacheTimestamps[k];
          oldest := Some(k);
        }
      }
    }

    method SetInCache(key: Key, value: Value, now: int) returns (ghost victim: Option<Key>)
      modifies this
      ensures Evicts(old(View()), now, victim)
      ensures View() == Put(old(View()), key, value, now, victim)
    {
      victim := None;
      if |cache| >= MAX_CACHE_SIZE {
        var oldest := Oldest(now);
        victim := oldest;
        if oldest.Some? {
          cache := cache - {oldest.value};
          cacheTimestamps := cacheTimestamps - {oldest.value};
        }
      }
      cache := cache[key := value];
      cacheTimestamps := cacheTimestamps[key := now];
    }

    method CleanupCache(now: int)
      modifies this
      ensures View() == Expire(old(View()), now)
    {
      ghost var all := View();
      var todo := cacheTimestamps.Keys;
      while todo != {}
        invariant todo <= cacheTimestamps.Keys <= all.stamps.Keys && cache.Keys <= all.values.Keys
        invariant forall k | k in cache :: cache[k] == all.values[k]
        invariant forall k | k in cacheTimestamps :: cacheTimestamps[k] == all.stamps[k]
        invariant forall k | k in all.stamps :: k in cacheTimestamps <==> k in todo || now - all.stamps[k] <= MAX_AGE
        invariant forall k | k in all.values :: k in cache <==> k !in all.stamps || k in cacheTimestamps
        decreases todo
      {
        var key := Next(todo);
        todo := todo - {key};
        if now - cacheTimestamps[key] > MAX_AGE {
          cache := cache - {key};
          cacheTimestamps := cacheTimestamps - {key};
        }
      }
    }

    method ClearCache()
      modifies this
      ensures View() == Cache(map[], map[])
    {
      cache, cacheTimestamps := map[], map[];
    }

    method GetAllUserMetrics(ttl: int, t: Clock, scan: Scan) returns (table: Table, ghost victim: Option<Key>)
      requires Typed(View())
      modifies this
      ensures Typed(View())
      ensures View() == Fetched(old(View()), ttl, t, scan, victim)
      ensures View() != old(View()) ==> Evicts(old(View()), t.tableStore, victim)
      ensures table == FetchedTable(old(View()), ttl, t, scan)
    {
      victim := None;
      var val := GetFromCache(AllUserMetrics, ttl, t.tableLookup);
      if val.Some? && val.value.Scanned? {
        return val.value.table, victim;
      }
      if scan.fallback {
        return scan.table, victim;
      }
      victim := SetInCache(AllUserMetrics, Scanned(scan.table), t.tableStore);
      return scan.table, victim;
    }

    static method SumOf(table: Table, limited: bool) returns (usage: real, memory: nat)
      ensures Totals(usage, memory) == TotalsOf(table, table.Keys, limited)
    {
      usage, memory := 0.0, 0;
      var todo := table.Keys;
      while todo != {}
        invariant todo <= table.Keys
        invariant usage + TotalsOf(table, todo, limited).cpu == TotalsOf(table, table.Keys, limited).cpu
        invariant memory + TotalsOf(table, todo, limited).memory == TotalsOf(table, table.Keys, limited).memory
        decreases todo
      {
        var uid := Next(todo);
        TotalsAnyOrder(table, todo, uid, limited);
        todo := todo - {uid};
        if Chosen(table[uid], limited) {
          usage := usage + table[uid].cpu;
          memory := memory + table[uid].memory;
        }
      }
    }

    static method ListOf(table: Table, limited: bool) returns (users: set<Uid>)
      ensures users == ChosenUsers(table, limited)
    {
      users := {};
      var todo := table.Keys;
      while todo != {}
        invariant todo <= table.Keys && users == ChosenUsers(table, limited) - todo
        decreases todo
      {
        var uid := Next(todo);
        todo := todo - {uid};
        if Chosen(table[uid], limited) {
          users := users + {uid};
        }
      }
    }

    /** The value that a getter computes from the table when its own entry is missing. */
    static method Compute(key: Key, table: Table) returns (v: Value)
      requires !key.Other?
      ensures v == Answer(key, table) && Means(key, v, table)
    {
      AnswerIs(key, table);
      hide Means;
      match key {
        case AllUserMetrics =>
          v := Scanned(table);
        case UsersCPU(limited) =>
          var usage, _ := SumOf(table, limited);
          v := Percent(usage);
        case UsersMemory(limited) =>
          var _, memory := SumOf(table, limited);
          v := Bytes(memory);
        case Users(limited) =>
          var users := ListOf(table, limited);
          v := Uids(users);
        case UserCPU(uid) =>
          v := Percent(if uid in table then table[uid].cpu else 0.0);
        case UserMemory(uid) =>
          v := Bytes(if uid in table then table[uid].memory else 0);
        case UserProcesses(uid) =>
          v := Count(if uid in table then table[uid].processes else 0);
      }
    }

    /** The getters of the totals and of the per-user values, which all take these steps. */
    method Ask(key: Key, ttl: int, t: Clock, scan: Scan) returns (v: Value)
      requires Typed(View()) && !key.Other? && !key.AllUserMetrics?
      modifies this
      ensures Typed(View()) && Fits(key, v)
      ensures Asked(old(View()), View(), key, ttl, t, scan, v)
    {
      hide Put, Evicts, Answer;
      var val := GetFromCache(key, ttl, t.lookup);
      if val.Some? {
        return val.value;
      }
      var allMetrics, first := GetAllUserMetrics(ttl, t, scan);
      v := Compute(key, allMetrics);
      AnswerFits(key, allMetrics);
      PutTyped(View(), key, v);
      ghost var second := SetInCache(key, v, t.store);
      assert AskedFresh(old(View()), View(), key, ttl, t, scan, first, second);
    }
  }

  lemma AnswerFits(key: Key, table: Table)
    requires !key.Other?
    ensures Fits(key, Answer(key, table))
  {
  }

  lemma PutTyped(c: Cache, key: Key, value: Value)
    requires Typed(c) && Fits(key, value)
    ensures forall now, victim :: Typed(Put(c, key, value, now, victim))
  {
  }
}
