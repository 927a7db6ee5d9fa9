/**
  One pass over the users that collects the totals of a cycle, and the I/O baseline from
  which write rates are computed between two control cycles.
*/
module SystemReading {
  import opened Common
  import ControlModel

  /** The part of a user's metrics that is added up. `written` is cumulative. */
  datatype User = User(cpu: real, memory: nat, written: nat, eligible: bool)

  type Users = map<Uid, User>

  /** `prevIOBytes` and `prevIOTime`. */
  datatype Baseline = Baseline(bytes: map<Uid, nat>, time: Instant)

  datatype Totals = Totals(cpu: real, memory: nat, io: nat)

  /** The aggregates of a collection: over all users, and over those that pass the filters. */
  datatype Summary = Summary(all: Totals, limited: Totals, count: nat, eligible: set<Uid>)

  /** The bytes a user is charged with since its previous value; none without one, or after a counter reset. */
  function Charged(b: Baseline, uid: Uid, written: nat): nat {
    if uid in b.bytes && written >= b.bytes[uid] then written - b.bytes[uid] else 0
  }

  /** Those bytes per second since the last control cycle, as a whole number. */
  function Rate(b: Baseline, uid: Uid, written: nat, now: int): (r: nat) {
    if b.time.Some? && now > b.time.value then (Charged(b, uid, written) as real / Seconds(now - b.time.value)).Floor else 0
  }

  function Add(users: Users, rates: map<Uid, nat>): (Totals, Uid) -> Totals {
    (t: Totals, u: Uid) =>
      if u in users then Totals(t.cpu + users[u].cpu, t.memory + users[u].memory, t.io + Lookup(rates, u, 0)) else t
  }

  ghost function Total(users: Users, some: set<Uid>, rates: map<Uid, nat>): Totals {
    Fold(some, Totals(0.0, 0, 0), Add(users, rates))
  }

  /** The totals do not depend on the order in which the map is visited. */
  lemma TotalAnyOrder(users: Users, some: set<Uid>, rates: map<Uid, nat>, u: Uid)
    requires u in some
    ensures Total(users, some, rates) == Add(users, rates)(Total(users, some - {u}, rates), u)
  {
    FoldAnyOrder(some, Totals(0.0, 0, 0), Add(users, rates), u);
  }

  function Eligible(users: Users): set<Uid> { set u | u in users && users[u].eligible }

  /** The rates of a decision cycle; a refresh computes none. */
  function Rates(b: Baseline, users: Users, update: bool, now: int): map<Uid, nat> {
    if update then map u | u in Eligible(users) :: Rate(b, u, users[u].written, now) else map[]
  }

  function NextBaseline(b: Baseline, users: Users, now: int): Baseline {
    Baseline(map u | u in users && (users[u].eligible || u in b.bytes) ::
               if users[u].eligible then users[u].written else b.bytes[u],
             Some(now))
  }

  /** The previous values after those users were visited. */
  function Replaced(bytes: map<Uid, nat>, users: Users, visited: set<Uid>): map<Uid, nat>
    requires visited <= users.Keys
  {
    bytes + map u | u in visited :: users[u].written
  }

  lemma ReplacedNone(bytes: map<Uid, nat>, users: Users)
    ensures Replaced(bytes, users, {}) == bytes
  {
  }

  lemma ReplacedOne(b: Baseline, users: Users, visited: set<Uid>, uid: Uid, written: nat, now: int)
    requires visited <= users.Keys && uid in users && uid !in visited
    ensures Replaced(b.bytes, users, visited + {uid}) == Replaced(b.bytes, users, visited)[uid := users[uid].written]
    ensures Rate(Baseline(Replaced(b.bytes, users, visited), b.time), uid, written, now) == Rate(b, uid, written, now)
  {
  }

  lemma RateIsListed(b: Baseline, users: Users, update: bool, now: int, uid: Uid)
    requires uid in Eligible(users)
    ensures Lookup(Rates(b, users, update, now), uid, 0) == if update then Rate(b, uid, users[uid].written, now) else 0
  {
    hide Rate;
  }

  lemma BaselineIsNext(b: Baseline, users: Users, now: int)
    ensures var replaced := Replaced(b.bytes, users, Eligible(users));
            NextBaseline(b, users, now) == Baseline(replaced - (replaced.Keys - users.Keys), Some(now))
  {
  }

  class Collector {
    var prevIOBytes: map<Uid, nat>
    var prevIOTime: Instant

    function View(): Baseline
      reads this
    {
      Baseline(prevIOBytes, prevIOTime)
    }

    constructor ()
      ensures View() == Baseline(map[], None)
    {
      prevIOBytes, prevIOTime := map[], None;
    }

    /** `collectSystemMetricsWithIOState`. */
    method CollectSystemMetrics(users: Users, update: bool, now: int) returns (s: Summary)
      modifies this
      ensures s.all == Total(users, users.Keys, map[]) && s.count == |users.Keys|
      ensures s.eligible == Eligible(users)
      ensures s.limited == Total(users, Eligible(users), Rates(old(View()), users, update, now))
      ensures View() == if update then NextBaseline(old(View()), users, now) else old(View())
    {
      hide Rate, Replaced, Rates, NextBaseline, Eligible, Total;
      BaselineIsNext(View(), users, now);
      var all := AddAll(users);
      var limited, eligible := AddEligible(users, update, now);
      if update {
        prevIOTime := Some(now);
        DropAbsent(users.Keys);
      }
      return Summary(all, limited, |users.Keys|, eligible);
    }

    static method AddAll(users: Users) returns (all: Totals)
      ensures all == Total(users, users.Keys, map[])
    {
      all := Totals(0.0, 0, 0);
      var todo := users.Keys;
      assert users.Keys - todo == {};
      while todo != {}
        invariant todo <= users.Keys && all == Total(users, users.Keys - todo, map[])
        decreases todo
      {
        var uid := Next(todo);
        assert users.Keys - (todo - {uid}) - {uid} == users.Keys - todo;
        TotalAnyOrder(users, users.Keys - (todo - {uid}), map[], uid);
        todo := todo - {uid};
        all := Totals(all.cpu + users[uid].cpu, all.memory + users[uid].memory, all.io);
      }
      assert users.Keys - todo == users.Keys;
    }

    /** Reads a user's rate and replaces its previous value. */
    method TakeRate(uid: Uid, written: nat, now: int) returns (rate: nat)
      modifies this`prevIOBytes
      ensures rate == Rate(old(View()), uid, written, now)
      ensures prevIOBytes == old(prevIOBytes)[uid := written]
    {
      rate := 0;
      if uid in prevIOBytes && prevIOTime.Some? {
        var elapsed := Seconds(now - prevIOTime.value);
        if elapsed > 0.0 && written >= prevIOBytes[uid] {
          rate := ((written - prevIOBytes[uid]) as real / elapsed).Floor;
        }
      }
      prevIOBytes := prevIOBytes[uid := written];
    }

    /** The eligible half of the pass. */
    method AddEligible(users: Users, update: bool, now: int) returns (limited: Totals, eligible: set<Uid>)
      modifies this`prevIOBytes
      ensures eligible == Eligible(users)
      ensures limited == Total(users, eligible, Rates(old(View()), users, update, now))
      ensures prevIOBytes == if update then Replaced(old(prevIOBytes), users, eligible) else old(prevIOBytes)
    {
      hide Rate, Replaced, Rates;
      ghost var before := View();
      ghost var rates := Rates(before, users, update, now);
      limited, eligible := Totals(0.0, 0, 0), {};
      var todo := users.Keys;
      ReplacedNone(before.bytes, users);
      while todo != {}
        invariant todo <= users.Keys && eligible == Eligible(users) - todo
        invariant limited == Total(users, eligible, rates)
        invariant prevIOBytes == if update then Replaced(before.bytes, users, eligible) else before.bytes
        decreases todo
      {
        var uid := Next(todo);
        todo := todo - {uid};
        if users[uid].eligible {
          var rate := 0;
          RateIsListed(before, users, update, now, uid);
          if update {
            ReplacedOne(before, users, eligible, uid, users[uid].written, now);
            rate := TakeRate(uid, users[uid].written, now);
          }
          TotalAnyOrder(users, eligible + {uid}, rates, uid);
          assert eligible + {uid} - {uid} == eligible;
          limited := Totals(limited.cpu + users[uid].cpu, limited.memory + users[uid].memory, limited.io + rate);
          eligible := eligible + {uid};
        }
      }
    }

    method DropAbsent(present: set<Uid>)
      modifies this`prevIOBytes
      ensures prevIOBytes == old(prevIOBytes) - (old(prevIOBytes).Keys - present)
    {
      var todo := prevIOBytes.Keys;
      ghost var all := prevIOBytes;
      while todo != {}
        invariant todo <= prevIOBytes.Keys && prevIOBytes == all - (all.Keys - present - todo)
        decreases todo
      {
        var uid := Next(todo);
        todo := todo - {uid};
        if uid !in present {
          prevIOBytes := prevIOBytes - {uid};
        }
      }
    }
  }

  // ------------------------------------------------------------ readings

  function CPUOf(users: Users): map<Uid, real> { map u | u in users :: users[u].cpu }

  /** The reading of the control loop that a decision cycle collects from those users. */
  ghost predicate ReportedAs(m: ControlModel.Metrics, users: Users, b: Baseline, now: int) {
    var limited := Total(users, Eligible(users), Rates(b, users, true, now));
    && m.userCPU == CPUOf(users) && m.eligible == Eligible(users) && m.limitedCPU == limited.cpu
    && m.limitedRAMBytes == limited.memory && m.limitedIOBytes == limited.io
  }

  lemma {:induction false} TotalCPU(users: Users, some: set<Uid>, rates: map<Uid, nat>)
    requires some <= users.Keys
    ensures Total(users, some, rates).cpu == ControlModel.UsedCPU(CPUOf(users), some)
  {
    if some != {} {
      var u :| u in some;
      TotalCPU(users, some - {u}, rates);
      TotalAnyOrder(users, some, rates, u);
      FoldAnyOrder(some, 0.0, (t: real, v: Uid) => t + Lookup(CPUOf(users), v, 0.0), u);
    }
  }

  lemma {:induction false} NothingElse(users: Users, some: set<Uid>, rates: map<Uid, nat>)
    requires forall u | u in some :: Lookup(rates, u, 0) == 0 && (u in users ==> users[u].memory == 0)
    ensures Total(users, some, rates).memory == 0 && Total(users, some, rates).io == 0
  {
    if some != {} {
      var u :| u in some;
      NothingElse(users, some - {u}, rates);
      TotalAnyOrder(users, some, rates, u);
    }
  }

  ghost predicate CanReport(m: ControlModel.Metrics) {
    exists users: Users, b, now :: (forall u | u in users :: users[u].cpu >= 0.0) && ReportedAs(m, users, b, now)
  }

  /** The readings that a pass can report are exactly those that add up. */
  lemma CollectedIff(m: ControlModel.Metrics)
    ensures ControlModel.Collected(m) <==> CanReport(m)
  {
    if CanReport(m) {
      var users: Users, b, now :| (forall u | u in users :: users[u].cpu >= 0.0) && ReportedAs(m, users, b, now);
      TotalCPU(users, Eligible(users), Rates(b, users, true, now));
    }
    if ControlModel.Collected(m) {
      if m.eligible == {} {
        var users: Users := map u | u in m.userCPU :: User(m.userCPU[u], 0, 0, false);
        Reports(m, users, Baseline(map[], None), 0);
      } else {
        var u :| u in m.eligible;
        OneUserReports(m, u);
      }
    }
  }

  lemma Reports(m: ControlModel.Metrics, users: Users, b: Baseline, now: int)
    requires ControlModel.Collected(m) && CPUOf(users) == m.userCPU && Eligible(users) == m.eligible
    requires var limited := Total(users, Eligible(users), Rates(b, users, true, now));
             limited.memory == m.limitedRAMBytes && limited.io == m.limitedIOBytes
    ensures CanReport(m)
  {
    TotalCPU(users, Eligible(users), Rates(b, users, true, now));
    assert forall u | u in users :: users[u].cpu == CPUOf(users)[u];
    assert ReportedAs(m, users, b, now);
  }

  /** One eligible user has all of the memory, and wrote everything in the last second. */
  lemma OneUserReports(m: ControlModel.Metrics, one: Uid)
    requires ControlModel.Collected(m) && one in m.eligible
    ensures CanReport(m)
  {
    var users: Users := map u | u in m.userCPU ::
      User(m.userCPU[u], if u == one then m.limitedRAMBytes else 0, if u == one then m.limitedIOBytes else 0,
           u in m.eligible);
    var b := Baseline(map[one := 0], Some(0));
    var rates := Rates(b, users, true, SECOND);
    assert Eligible(users) == m.eligible && CPUOf(users) == m.userCPU;
    assert Rate(b, one, m.limitedIOBytes, SECOND) == m.limitedIOBytes;
    NothingElse(users, m.eligible - {one}, rates);
    TotalAnyOrder(users, m.eligible, rates, one);
    Reports(m, users, b, SECOND);
  }

  // ------------------------------------------------------------ runs

  datatype Collection = Collection(users: Users, update: bool, now: int)

  function Step(b: Baseline, c: Collection): Baseline { if c.update then NextBaseline(b, c.users, c.now) else b }

  function Run(cs: seq<Collection>): Baseline {
    if cs == [] then Baseline(map[], None) else Step(Run(cs[..|cs| - 1]), cs[|cs| - 1])
  }

  predicate Passes(c: Collection, u: Uid) { c.update && u in c.users && c.users[u].eligible }

  /** Collection `i` is the last decision cycle in which the user passed the filters, and it was seen in all later ones. */
  ghost predicate LastPass(cs: seq<Collection>, u: Uid, i: nat) {
    i < |cs| && Passes(cs[i], u) && forall j | i < j < |cs| && cs[j].update :: u in cs[j].users && !cs[j].users[u].eligible
  }

  /** The baseline holds the value of the last decision cycle in which the user passed the filters, however long ago. */
  lemma {:induction false} BaselineIs(cs: seq<Collection>, u: Uid)
    ensures u in Run(cs).bytes <==> exists i: nat :: LastPass(cs, u, i)
    ensures forall i: nat | LastPass(cs, u, i) :: u in Run(cs).bytes && Run(cs).bytes[u] == cs[i].users[u].written
  {
    if cs != [] {
      var n := |cs| - 1;
      BaselineIs(cs[..n], u);
      PassesGrow(cs, u);
      if u in Run(cs).bytes {
        if Passes(cs[n], u) {
          assert LastPass(cs, u, n);
        } else {
          var i: nat :| LastPass(cs[..n], u, i);
          assert LastPass(cs, u, i);
        }
      }
    }
  }

  lemma PassesGrow(cs: seq<Collection>, u: Uid)
    requires cs != []
    ensures var n := |cs| - 1;
            forall i: nat :: LastPass(cs, u, i) <==>
              if i == n then Passes(cs[n], u)
              else LastPass(cs[..n], u, i) && (cs[n].update ==> u in cs[n].users && !cs[n].users[u].eligible)
  {
    var n := |cs| - 1;
    forall i: nat | i < n
      ensures LastPass(cs, u, i) <==>
                LastPass(cs[..n], u, i) && (cs[n].update ==> u in cs[n].users && !cs[n].users[u].eligible)
    {
      assert forall j | i < j < n :: cs[..n][j] == cs[j];
    }
  }

  /** What the next cycle charges: the growth since the last pass, or nothing. */
  lemma ChargedIs(cs: seq<Collection>, u: Uid, written: nat)
    ensures (forall i: nat :: !LastPass(cs, u, i)) ==> Charged(Run(cs), u, written) == 0
    ensures forall i: nat | LastPass(cs, u, i) ::
              Charged(Run(cs), u, written)
              == if written >= cs[i].users[u].written then written - cs[i].users[u].written else 0
  {
    BaselineIs(cs, u);
  }

  /**
    The next rate is the charge per second since the last cycle. The charge is the growth
    since the last cycle exactly if the counter then stood where it stood at the last pass,
    or if both are zero after a reset; anything written in between is charged on top. A user
    without a last pass is charged with nothing at all.
  */
  lemma ChargeIsGrowthIff(cs: seq<Collection>, u: Uid, written: nat, now: int)
    requires cs != [] && cs[|cs| - 1].update && now > cs[|cs| - 1].now
    requires u in cs[|cs| - 1].users && cs[|cs| - 1].users[u].written <= written
    ensures var last, b := cs[|cs| - 1], Run(cs);
            var growth := written - last.users[u].written;
            && Rate(b, u, written, now) == (Charged(b, u, written) as real / Seconds(now - last.now)).Floor
            && ((forall i: nat :: !LastPass(cs, u, i)) ==>
                  Charged(b, u, written) == 0 && (Charged(b, u, written) == growth <==> written == last.users[u].written))
            && (forall i: nat | LastPass(cs, u, i) && cs[i].users[u].written <= last.users[u].written ::
                  Charged(b, u, written) == growth + (last.users[u].written - cs[i].users[u].written))
            && (forall i: nat | LastPass(cs, u, i) ::
                  Charged(b, u, written) == growth
                  <==> last.users[u].written == cs[i].users[u].written
                       || (written == last.users[u].written && written < cs[i].users[u].written))
  {
    ChargedIs(cs, u, written);
    TimeIs(cs);
  }

  lemma TimeIs(cs: seq<Collection>)
    requires cs != [] && cs[|cs| - 1].update
    ensures Run(cs).time == Some(cs[|cs| - 1].now)
  {
  }

  /** A user that passed in the last cycle is always charged with its growth. */
  lemma PassingUserIsCharged(cs: seq<Collection>, u: Uid, written: nat)
    requires cs != [] && Passes(cs[|cs| - 1], u) && cs[|cs| - 1].users[u].written <= written
    ensures Charged(Run(cs), u, written) == written - cs[|cs| - 1].users[u].written
  {
    LastBaseline(cs, u);
  }

  /** A user that left the filters and came back is charged with the bytes of its absence, at a rate it never had. */
  lemma ReturningUserIsOvercharged(u: Uid)
    ensures var cycle := (n: nat, passes: bool) => Collection(map[u := User(0.0, 0, 1000 * n, passes)], true, n * SECOND);
            var cs := [cycle(0, true), cycle(1, false), cycle(2, false)];
            Rate(Run(cs), u, 3000, 3 * SECOND) == 3000
  {
    var cycle := (n: nat, passes: bool) => Collection(map[u := User(0.0, 0, 1000 * n, passes)], true, n * SECOND);
    var cs := [cycle(0, true), cycle(1, false), cycle(2, false)];
    assert LastPass(cs, u, 0);
    ChargeIsGrowthIff(cs, u, 3000, 3 * SECOND);
    assert 3000 as real / Seconds(SECOND) == 3000.0;
  }

  // ------------------------------------------------------------ rates add up

  /** The user passes in every decision cycle, its counter never falls and the clock moves on. */
  ghost predicate Steady(cs: seq<Collection>, u: Uid) {
    && (forall i | 0 <= i < |cs| :: Passes(cs[i], u))
    && (forall i | 0 < i < |cs| :: cs[i - 1].now < cs[i].now && cs[i - 1].users[u].written <= cs[i].users[u].written)
  }

  /** The sum over the cycles of rate times seconds. */
  function ChargedTotal(cs: seq<Collection>, u: Uid): real {
    if |cs| <= 1 then 0.0
    else
      var n := |cs| - 1;
      ChargedTotal(cs[..n], u)
      + if u in cs[n].users then Charge(Run(cs[..n]), u, cs[n].users[u].written, cs[n].now, cs[n - 1].now) else 0.0
  }

  /** The bytes that a rate stands for until the next cycle. */
  function Charge(b: Baseline, u: Uid, written: nat, now: int, before: int): real {
    Times(Rate(b, u, written, now) as real, Seconds(now - before))
  }

  function Times(rate: real, seconds: real): real { rate * seconds }

  lemma Larger(a: real, b: real, seconds: real)
    requires a < b && seconds > 0.0
    ensures Times(a, seconds) < Times(b, seconds)
  {
    assert (b - a) * seconds > 0.0;
  }

  lemma OneMore(r: real, seconds: real)
    ensures Times(r + 1.0, seconds) == Times(r, seconds) + seconds
  {
  }

  lemma Quotient(growth: real, seconds: real)
    requires seconds > 0.0
    ensures Times(growth / seconds, seconds) == growth
  {
  }

  lemma FloorTimes(growth: real, seconds: real)
    requires seconds > 0.0
    ensures var r := (growth / seconds).Floor as real; Times(r, seconds) <= growth <= Times(r, seconds) + seconds
  {
    hide Times;
    var q := growth / seconds;
    var r := q.Floor as real;
    Quotient(growth, seconds);
    OneMore(r, seconds);
    Larger(q, r + 1.0, seconds);
    if r < q {
      Larger(r, q, seconds);
    }
  }

  /** One cycle charges the growth, less at most one byte for every second. */
  lemma RateCharges(b: Baseline, u: Uid, written: nat, now: int)
    requires u in b.bytes && b.time.Some? && now > b.time.value && written >= b.bytes[u]
    ensures var charge := Charge(b, u, written, now, b.time.value);
            charge <= (written - b.bytes[u]) as real <= charge + Seconds(now - b.time.value)
  {
    FloorTimes((written - b.bytes[u]) as real, Seconds(now - b.time.value));
  }

  /** Over any steady run the rates charge the whole growth, less at most one byte for every second. */
  lemma {:induction false} RatesAddUp(cs: seq<Collection>, u: Uid)
    requires cs != [] && Steady(cs, u)
    ensures var n := |cs| - 1;
            var growth := (cs[n].users[u].written - cs[0].users[u].written) as real;
            ChargedTotal(cs, u) <= growth <= ChargedTotal(cs, u) + Seconds(cs[n].now - cs[0].now)
  {
    var n := |cs| - 1;
    if n > 0 {
      SteadyBefore(cs, u);
      hide Charge, Run, Steady, ChargedTotal;
      RatesAddUp(cs[..n], u);
      LastBaseline(cs[..n], u);
      RateCharges(Run(cs[..n]), u, cs[n].users[u].written, cs[n].now);
      ChargedNext(cs, u);
    } else {
      ChargedOnce(cs, u);
    }
  }

  lemma SteadyBefore(cs: seq<Collection>, u: Uid)
    requires |cs| > 1 && Steady(cs, u)
    ensures var n := |cs| - 1;
            && Steady(cs[..n], u) && Passes(cs[n], u) && Passes(cs[n - 1], u)
            && cs[..n][n - 1] == cs[n - 1] && cs[..n][0] == cs[0]
            && cs[n - 1].now < cs[n].now && cs[n - 1].users[u].written <= cs[n].users[u].written && Passes(cs[0], u)
  {
    hide Passes;
    assert Passes(cs[0], u);
  }

  lemma ChargedNext(cs: seq<Collection>, u: Uid)
    requires |cs| > 1 && u in cs[|cs| - 1].users
    ensures var n := |cs| - 1;
            ChargedTotal(cs, u)
            == ChargedTotal(cs[..n], u) + Charge(Run(cs[..n]), u, cs[n].users[u].written, cs[n].now, cs[n - 1].now)
  {
    hide Charge, Run;
  }

  lemma ChargedOnce(cs: seq<Collection>, u: Uid)
    requires |cs| == 1
    ensures ChargedTotal(cs, u) == 0.0
  {
  }

  lemma LastBaseline(cs: seq<Collection>, u: Uid)
    requires cs != [] && Passes(cs[|cs| - 1], u)
    ensures u in Run(cs).bytes && Run(cs).bytes[u] == cs[|cs| - 1].users[u].written
    ensures Run(cs).time == Some(cs[|cs| - 1].now)
  {
  }
}
