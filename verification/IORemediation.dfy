/** I/O starvation remediation: the per-user starvation timer, the boost and its hourly cap. */
module IORemediation {
  import opened Common

  const HOUR := 3600 * SECOND

  datatype Config = Config(
    enabled: bool,
    checkInterval: int,
    starvationThreshold: int,
    psiThreshold: real,
    boostDuration: int,
    boostMaxPerHour: int,
    revertOnNormal: bool)

  /** `IOBoostState`. */
  datatype Boost = Boost(active: bool, start: Instant, count: nat, last: Instant, starvedSince: Instant)

  const NoBoost := Boost(false, None, 0, None, None)

  /** One iteration of the check: the user, its pressure if readable, and whether RemoveIOLimit works. */
  datatype Check = Check(uid: Uid, psi: Option<real>, removeOk: bool)

  function Revert(b: Boost): Boost { b.(active := false, starvedSince := None) }

  predicate Starved(cfg: Config, psi: real) { psi >= cfg.psiThreshold }

  /** The branch for a user under pressure. */
  function CheckStarved(cfg: Config, now: int, b: Boost, removeOk: bool): (Boost, bool) {
    var since := if b.starvedSince.None? then now else b.starvedSince.value;
    var timed := b.(starvedSince := Some(since));
    if now - since >= cfg.starvationThreshold * SECOND && !b.active then
      if b.count >= cfg.boostMaxPerHour || !removeOk then (timed, false)
      else (timed.(active := true, start := Some(now), count := b.count + 1, last := Some(now)), true)
    else if b.active && ElapsedAtLeast(now, b.start, cfg.boostDuration * SECOND) then (Revert(timed), false)
    else (timed, false)
  }

  /** One user's turn in the loop of `CheckAndRemediate`: the new state, and whether it was boosted. */
  function CheckUser(cfg: Config, now: int, b: Boost, c: Check): (Boost, bool) {
    if c.psi.None? then (b, false)
    else if Starved(cfg, c.psi.value) then CheckStarved(cfg, now, b, c.removeOk)
    else
      var calm := b.(starvedSince := None);
      (if b.active && cfg.revertOnNormal then Revert(calm) else calm, false)
  }

  function CheckAll(cfg: Config, now: int, states: map<Uid, Boost>, checks: seq<Check>): map<Uid, Boost> {
    if checks == [] then states
    else
      var before := CheckAll(cfg, now, states, checks[..|checks| - 1]);
      var c := checks[|checks| - 1];
      before[c.uid := CheckUser(cfg, now, Lookup(before, c.uid, NoBoost), c).0]
  }

  /** The check is enabled and its interval has passed. */
  predicate Due(cfg: Config, lastCheck: Instant, now: int) {
    cfg.enabled && ElapsedAtLeast(now, lastCheck, cfg.checkInterval * SECOND)
  }

  predicate OlderThan(now: int, t: Instant, d: int) { t.None? || now - t.value > d }

  predicate Stale(now: int, maxAge: int, b: Boost) { !b.active && OlderThan(now, b.last, maxAge) }

  function ResetCount(now: int, b: Boost): Boost {
    if OlderThan(now, b.last, HOUR) then b.(count := 0) else b
  }

  function CleanAll(now: int, maxAge: int, states: map<Uid, Boost>): map<Uid, Boost> {
    map uid | uid in states && !Stale(now, maxAge, states[uid]) :: ResetCount(now, states[uid])
  }

  class Remediation {
    var boostStates: map<Uid, Boost>
    var lastCheck: Instant

    constructor ()
      ensures boostStates == map[] && lastCheck == None
    {
      boostStates, lastCheck := map[], None;
    }

    method CheckAndRemediate(cfg: Config, now: int, checks: seq<Check>)
      modifies this
      ensures if Due(cfg, old(lastCheck), now)
              then boostStates == CheckAll(cfg, now, old(boostStates), checks) && lastCheck == Some(now)
              else boostStates == old(boostStates) && lastCheck == old(lastCheck)
    {
      if !cfg.enabled {
        return;
      }
      if !ElapsedAtLeast(now, lastCheck, cfg.checkInterval * SECOND) {
        return;
      }
      lastCheck := Some(now);
      for k := 0 to |checks|
        invariant lastCheck == Some(now)
        invariant boostStates == CheckAll(cfg, now, old(boostStates), checks[..k])
      {
        assert checks[..k + 1][..k] == checks[..k];
        CheckOne(cfg, now, checks[k]);
      }
      assert checks[..|checks|] == checks;
    }

    /** The loop body of `CheckAndRemediate`. */
    method CheckOne(cfg: Config, now: int, c: Check)
      modifies this`boostStates
      ensures boostStates
              == old(boostStates)[c.uid := CheckUser(cfg, now, Lookup(old(boostStates), c.uid, NoBoost), c).0]
    {
      if c.uid !in boostStates {
        boostStates := boostStates[c.uid := NoBoost];
      }
      var state := boostStates[c.uid];
      if c.psi.None? {
        return;
      }
      if c.psi.value >= cfg.psiThreshold {
        if state.starvedSince.None? {
          state := state.(starvedSince := Some(now));
        }
        var starvedFor := now - state.starvedSince.value;
        if starvedFor >= cfg.starvationThreshold * SECOND && !state.active {
          if state.count < cfg.boostMaxPerHour && c.removeOk {
            state := state.(active := true, start := Some(now), count := state.count + 1, last := Some(now));
          }
        } else if state.active && ElapsedAtLeast(now, state.start, cfg.boostDuration * SECOND) {
          state := Revert(state);
        }
      } else {
        state := state.(starvedSince := None);
        if state.active && cfg.revertOnNormal {
          state := Revert(state);
        }
      }
      boostStates := boostStates[c.uid := state];
    }

    method Cleanup(maxAge: int, now: int)
      modifies this`boostStates
      ensures boostStates == CleanAll(now, maxAge, old(boostStates))
    {
      var before := boostStates;
      var todo := before.Keys;
      while todo != {}
        invariant todo <= before.Keys
        invariant forall uid :: uid in boostStates
                    <==> uid in before && (uid in todo || !Stale(now, maxAge, before[uid]))
        invariant forall uid | uid in boostStates ::
                    boostStates[uid] == if uid in todo then before[uid] else ResetCount(now, before[uid])
      {
        var uid := Next(todo);
        todo := todo - {uid};
        var state := boostStates[uid];
        if !state.active && OlderThan(now, state.last, maxAge) {
          boostStates := boostStates - {uid};
        } else if OlderThan(now, state.last, HOUR) {
          boostStates := boostStates[uid := state.(count := 0)];
        }
      }
    }
  }

  // ------------------------------------------------------- runs

  datatype Event =
    | CheckEvent(now: int, checks: seq<Check>)
    | CleanupEvent(now: int, maxAge: int)

  /** One readable check of one user. */
  datatype Observation = Observation(at: int, starved: bool, boosted: bool)

  /** The remediation state, and the observations made so far of each user. */
  datatype World = World(states: map<Uid, Boost>, lastCheck: Instant, seen: map<Uid, seq<Observation>>)

  const Start := World(map[], None, map[])

  function Seen(w: World, uid: Uid): seq<Observation> { Lookup(w.seen, uid, []) }

  function StateOf(w: World, uid: Uid): Boost { Lookup(w.states, uid, NoBoost) }

  function ObserveUser(cfg: Config, now: int, w: World, c: Check): World {
    var (b, boosted) := CheckUser(cfg, now, StateOf(w, c.uid), c);
    World(w.states[c.uid := b], w.lastCheck,
          if c.psi.None? then w.seen
          else w.seen[c.uid := Seen(w, c.uid) + [Observation(now, Starved(cfg, c.psi.value), boosted)]])
  }

  function ObserveAll(cfg: Config, now: int, w: World, checks: seq<Check>): World {
    if checks == [] then w
    else ObserveUser(cfg, now, ObserveAll(cfg, now, w, checks[..|checks| - 1]), checks[|checks| - 1])
  }

  function Step(cfg: Config, w: World, e: Event): World {
    match e
    case CheckEvent(now, checks) =>
      if Due(cfg, w.lastCheck, now) then ObserveAll(cfg, now, w.(lastCheck := Some(now)), checks) else w
    case CleanupEvent(now, maxAge) => w.(states := CleanAll(now, maxAge, w.states))
  }

  function Run(cfg: Config, es: seq<Event>): World {
    if es == [] then Start else Step(cfg, Run(cfg, es[..|es| - 1]), es[|es| - 1])
  }

  /** The run has the states that the object's methods compute. */
  lemma {:induction false} WorldFollowsCode(cfg: Config, now: int, w: World, checks: seq<Check>)
    ensures ObserveAll(cfg, now, w, checks).states == CheckAll(cfg, now, w.states, checks)
    ensures ObserveAll(cfg, now, w, checks).lastCheck == w.lastCheck
  {
    if checks != [] {
      WorldFollowsCode(cfg, now, w, checks[..|checks| - 1]);
    }
  }

  /** Time does not run backwards, and cleanups keep what is younger than an hour. */
  ghost predicate Timely(es: seq<Event>) {
    && (forall i, j | 0 <= i < j < |es| :: es[i].now <= es[j].now)
    && (forall e | e in es && e.CleanupEvent? :: e.maxAge >= HOUR)
  }

  /** The times at which a user was boosted. */
  function Boosts(h: seq<Observation>): seq<int> {
    if h == [] then []
    else Boosts(h[..|h| - 1]) + if h[|h| - 1].boosted then [h[|h| - 1].at] else []
  }

  // ------------------------------------------------------- the hourly cap

  /** No window of one hour contains more than `cap` boosts. */
  ghost predicate Capped(cap: int, bs: seq<int>) {
    forall i, j | 0 <= i <= j < |bs| && bs[j] - bs[i] <= HOUR :: j - i + 1 <= cap
  }

  /**
    `count` boosts belong to the current series. Every earlier one is more than an hour
    older than the series and than the present.
  */
  ghost predicate CountsRecent(b: Boost, bs: seq<int>, now: int) {
    && b.count <= |bs|
    && (forall i, j | 0 <= i <= j < |bs| :: bs[i] <= bs[j] <= now)
    && (forall i | 0 <= i < |bs| - b.count :: now - bs[i] > HOUR)
    && (b.count > 0 ==> b.last == Some(bs[|bs| - 1]))
  }

  // ------------------------------------------------------- starvation

  /** Since observation `p`, every readable check found pressure at or above the threshold. */
  ghost predicate StarvedSince(h: seq<Observation>, p: int) {
    0 <= p < |h| && forall q | p <= q < |h| :: h[q].starved
  }

  /** A running timer was started by an observation from which on the user was always starved. */
  ghost predicate TimerExplained(b: Boost, h: seq<Observation>) {
    b.starvedSince.Some? ==> exists p :: StarvedSince(h, p) && h[p].at == b.starvedSince.value
  }

  ghost predicate BoostExplained(cfg: Config, h: seq<Observation>, n: int)
    requires 0 <= n < |h|
  {
    exists p :: StarvedSince(h[..n + 1], p) && h[n].at - h[p].at >= cfg.starvationThreshold * SECOND
  }

  ghost predicate Spaced(cfg: Config, bs: seq<int>) {
    forall i | 0 < i < |bs| :: bs[i] - bs[i - 1] >= cfg.starvationThreshold * SECOND
  }

  /** A boost in force started at the last boost; without one the timer started after it. */
  ghost predicate BoostDated(b: Boost, bs: seq<int>) {
    && (b.active ==> bs != [] && b.start == b.last == Some(bs[|bs| - 1]))
    && (!b.active && b.starvedSince.Some? && bs != [] ==> bs[|bs| - 1] <= b.starvedSince.value)
  }

  ghost predicate UserInvariant(cfg: Config, b: Boost, h: seq<Observation>, now: int) {
    var bs := Boosts(h);
    && CountsRecent(b, bs, now) && b.count <= Cap(cfg) && Capped(Cap(cfg), bs)
    && TimerExplained(b, h) && BoostDated(b, bs) && Spaced(cfg, bs)
    && (forall q | 0 <= q < |h| :: h[q].at <= now)
    && (forall n | 0 <= n < |h| && h[n].boosted :: BoostExplained(cfg, h, n))
  }

  function Cap(cfg: Config): nat { if cfg.boostMaxPerHour < 0 then 0 else cfg.boostMaxPerHour }

  lemma BoostCounts(cfg: Config, now: int, b: Boost, bs: seq<int>, newBoost: Boost, newTimes: seq<int>)
    requires CountsRecent(b, bs, now) && b.count < cfg.boostMaxPerHour && Capped(Cap(cfg), bs)
    requires newTimes == bs + [now] && newBoost.count == b.count + 1 && newBoost.last == Some(now)
    ensures CountsRecent(newBoost, newTimes, now) && Capped(Cap(cfg), newTimes)
  {
    forall i, j | 0 <= i <= j < |newTimes| && newTimes[j] - newTimes[i] <= HOUR ensures j - i + 1 <= Cap(cfg) {
      if j < |bs| {
        assert bs[j] - bs[i] <= HOUR;
      }
    }
  }

  /** A timer that keeps running, or starts now, is explained by one more starved observation. */
  lemma StillStarved(b: Boost, h: seq<Observation>, o: Observation, since: int)
    requires TimerExplained(b, h) && o.starved
    requires since == if b.starvedSince.None? then o.at else b.starvedSince.value
    ensures exists p :: StarvedSince(h + [o], p) && (h + [o])[p].at == since
  {
    if b.starvedSince.None? {
      assert StarvedSince(h + [o], |h|);
    } else {
      var p :| StarvedSince(h, p) && h[p].at == since;
      assert StarvedSince(h + [o], p);
    }
  }

  lemma OldBoostsStayExplained(cfg: Config, h: seq<Observation>, o: Observation)
    requires forall n | 0 <= n < |h| && h[n].boosted :: BoostExplained(cfg, h, n)
    ensures forall n | 0 <= n < |h| && h[n].boosted :: BoostExplained(cfg, h + [o], n)
  {
    forall n | 0 <= n < |h| && h[n].boosted ensures BoostExplained(cfg, h + [o], n) {
      assert (h + [o])[..n + 1] == h[..n + 1];
      var p :| StarvedSince(h[..n + 1], p) && h[n].at - h[p].at >= cfg.starvationThreshold * SECOND;
      assert StarvedSince((h + [o])[..n + 1], p);
    }
  }

  /** The history after one readable check. */
  function Checked(cfg: Config, now: int, b: Boost, h: seq<Observation>, c: Check): seq<Observation>
    requires c.psi.Some?
  {
    h + [Observation(now, Starved(cfg, c.psi.value), CheckUser(cfg, now, b, c).1)]
  }

  lemma BoostsOfChecked(cfg: Config, now: int, b: Boost, h: seq<Observation>, c: Check)
    requires c.psi.Some?
    ensures Boosts(Checked(cfg, now, b, h, c)) == Boosts(h) + if CheckUser(cfg, now, b, c).1 then [now] else []
  {
    assert Checked(cfg, now, b, h, c)[..|h|] == h;
  }

  /** A boost adds one to the count and becomes the last one; nothing else changes them. */
  lemma CheckCounts(cfg: Config, now: int, b: Boost, c: Check)
    requires c.psi.Some?
    ensures var (newBoost, boosted) := CheckUser(cfg, now, b, c);
            if boosted then b.count < cfg.boostMaxPerHour && newBoost.count == b.count + 1 && newBoost.last == Some(now)
            else newBoost.count == b.count && newBoost.last == b.last
  {
  }

  lemma CheckKeepsCounts(cfg: Config, before: int, now: int, b: Boost, h: seq<Observation>, c: Check)
    requires UserInvariant(cfg, b, h, before) && before <= now && c.psi.Some?
    ensures var bs := Boosts(Checked(cfg, now, b, h, c));
            var newBoost := CheckUser(cfg, now, b, c).0;
            CountsRecent(newBoost, bs, now) && newBoost.count <= Cap(cfg) && Capped(Cap(cfg), bs)
  {
    BoostsOfChecked(cfg, now, b, h, c);
    var (newBoost, boosted) := CheckUser(cfg, now, b, c);
    CheckCounts(cfg, now, b, c);
    hide CheckUser, Checked, TimerExplained, BoostDated, Spaced, Boosts;
    if boosted {
      BoostCounts(cfg, now, b, Boosts(h), newBoost, Boosts(Checked(cfg, now, b, h, c)));
    }
  }

  lemma SpacedMore(cfg: Config, bs: seq<int>, now: int)
    requires Spaced(cfg, bs) && (bs != [] ==> now - bs[|bs| - 1] >= cfg.starvationThreshold * SECOND)
    ensures Spaced(cfg, bs + [now])
  {
  }

  lemma BoostDates(cfg: Config, now: int, b: Boost, bs: seq<int>, c: Check)
    requires c.psi.Some? && BoostDated(b, bs) && Spaced(cfg, bs) && (bs != [] ==> bs[|bs| - 1] <= now)
    ensures var (newBoost, boosted) := CheckUser(cfg, now, b, c);
            var newTimes := bs + if boosted then [now] else [];
            BoostDated(newBoost, newTimes) && Spaced(cfg, newTimes)
  {
    hide Spaced;
    if CheckUser(cfg, now, b, c).1 {
      SpacedMore(cfg, bs, now);
    } else {
      assert bs + [] == bs;
    }
  }

  lemma CheckKeepsDates(cfg: Config, before: int, now: int, b: Boost, h: seq<Observation>, c: Check)
    requires UserInvariant(cfg, b, h, before) && before <= now && c.psi.Some?
    ensures var bs := Boosts(Checked(cfg, now, b, h, c));
            BoostDated(CheckUser(cfg, now, b, c).0, bs) && Spaced(cfg, bs)
  {
    BoostsOfChecked(cfg, now, b, h, c);
    assert Boosts(h) != [] ==> Boosts(h)[|Boosts(h)| - 1] <= now;
    hide UserInvariant, CheckUser, Checked, BoostDated, Spaced, Boosts;
    BoostDates(cfg, now, b, Boosts(h), c);
  }

  /** A timer or a boost after a check needs pressure in that check, and a boost the whole threshold of it. */
  lemma CheckTimes(cfg: Config, now: int, b: Boost, c: Check)
    requires c.psi.Some?
    ensures var (newBoost, boosted) := CheckUser(cfg, now, b, c);
            var since := if b.starvedSince.None? then now else b.starvedSince.value;
            && (newBoost.starvedSince.Some? ==> Starved(cfg, c.psi.value) && newBoost.starvedSince.value == since)
            && (boosted ==> Starved(cfg, c.psi.value) && now - since >= cfg.starvationThreshold * SECOND)
  {
  }

  lemma CheckKeepsTimer(cfg: Config, before: int, now: int, b: Boost, h: seq<Observation>, c: Check)
    requires UserInvariant(cfg, b, h, before) && before <= now && c.psi.Some?
    ensures var newHistory := Checked(cfg, now, b, h, c);
            && TimerExplained(CheckUser(cfg, now, b, c).0, newHistory)
            && forall n | 0 <= n < |newHistory| && newHistory[n].boosted :: BoostExplained(cfg, newHistory, n)
  {
    CheckTimes(cfg, now, b, c);
    var o := Observation(now, Starved(cfg, c.psi.value), CheckUser(cfg, now, b, c).1);
    var newHistory := h + [o];
    assert newHistory == Checked(cfg, now, b, h, c);
    OldBoostsStayExplained(cfg, h, o);
    hide CheckUser, UserInvariant, Checked;
    if o.starved {
      StillStarved(b, h, o, if b.starvedSince.None? then now else b.starvedSince.value);
      assert newHistory[..|h| + 1] == newHistory;
    }
  }

  lemma CheckKeepsInvariant(cfg: Config, before: int, now: int, b: Boost, h: seq<Observation>, c: Check)
    requires UserInvariant(cfg, b, h, before) && before <= now && c.psi.Some?
    ensures UserInvariant(cfg, CheckUser(cfg, now, b, c).0, Checked(cfg, now, b, h, c), now)
  {
    hide CheckUser, Boosts, BoostExplained, TimerExplained, CountsRecent, Capped, BoostDated, Spaced;
    CheckKeepsCounts(cfg, before, now, b, h, c);
    CheckKeepsDates(cfg, before, now, b, h, c);
    CheckKeepsTimer(cfg, before, now, b, h, c);
  }

  lemma CleanKeepsInvariant(cfg: Config, before: int, now: int, b: Boost, h: seq<Observation>)
    requires UserInvariant(cfg, b, h, before) && before <= now
    ensures UserInvariant(cfg, ResetCount(now, b), h, now)
    ensures OlderThan(now, b.last, HOUR) && !b.active ==> UserInvariant(cfg, NoBoost, h, now)
  {
  }

  ghost predicate Invariant(cfg: Config, w: World, now: int) {
    forall uid :: UserInvariant(cfg, StateOf(w, uid), Seen(w, uid), now)
  }

  lemma TimePasses(cfg: Config, w: World, before: int, now: int)
    requires Invariant(cfg, w, before) && before <= now
    ensures Invariant(cfg, w, now)
  {
    forall uid ensures UserInvariant(cfg, StateOf(w, uid), Seen(w, uid), now) {
      assert UserInvariant(cfg, StateOf(w, uid), Seen(w, uid), before);
    }
  }

  lemma {:induction false} ObserveKeepsInvariant(cfg: Config, now: int, w: World, checks: seq<Check>)
    requires Invariant(cfg, w, now)
    ensures Invariant(cfg, ObserveAll(cfg, now, w, checks), now)
  {
    if checks != [] {
      hide UserInvariant, CheckUser;
      ObserveKeepsInvariant(cfg, now, w, checks[..|checks| - 1]);
      var v, c := ObserveAll(cfg, now, w, checks[..|checks| - 1]), checks[|checks| - 1];
      var next := ObserveUser(cfg, now, v, c);
      forall uid ensures UserInvariant(cfg, StateOf(next, uid), Seen(next, uid), now) {
        assert UserInvariant(cfg, StateOf(v, uid), Seen(v, uid), now);
        if uid == c.uid {
          if c.psi.Some? {
            CheckKeepsInvariant(cfg, now, now, StateOf(v, uid), Seen(v, uid), c);
          } else {
            Unreadable(cfg, now, StateOf(v, uid), c);
          }
        }
      }
    }
  }

  lemma Unreadable(cfg: Config, now: int, b: Boost, c: Check)
    requires c.psi.None?
    ensures CheckUser(cfg, now, b, c) == (b, false)
  {
  }

  lemma CleanupKeepsInvariant(cfg: Config, w: World, before: int, now: int, maxAge: int)
    requires Invariant(cfg, w, before) && before <= now && maxAge >= HOUR
    ensures Invariant(cfg, w.(states := CleanAll(now, maxAge, w.states)), now)
  {
    var next := w.(states := CleanAll(now, maxAge, w.states));
    forall uid ensures UserInvariant(cfg, StateOf(next, uid), Seen(next, uid), now) {
      hide UserInvariant;
      assert UserInvariant(cfg, StateOf(w, uid), Seen(w, uid), before);
      CleanKeepsInvariant(cfg, before, now, StateOf(w, uid), Seen(w, uid));
    }
  }

  lemma {:induction false} RunKeepsInvariant(cfg: Config, es: seq<Event>, now: int)
    requires Timely(es) && (es != [] ==> now == es[|es| - 1].now)
    ensures Invariant(cfg, Run(cfg, es), now)
  {
    if es != [] {
      hide Invariant;
      var before, e := es[..|es| - 1], es[|es| - 1];
      var earlier := if before == [] then e.now else before[|before| - 1].now;
      assert e in es && forall x | x in before :: x in es;
      RunKeepsInvariant(cfg, before, earlier);
      match e {
        case CheckEvent(t, checks) =>
          TimePasses(cfg, Run(cfg, before), earlier, t);
          LastCheckIsFree(cfg, Run(cfg, before), t, Some(t));
          ObserveKeepsInvariant(cfg, t, Run(cfg, before).(lastCheck := Some(t)), checks);
        case CleanupEvent(t, maxAge) =>
          CleanupKeepsInvariant(cfg, Run(cfg, before), earlier, t, maxAge);
      }
    }
  }

  lemma LastCheckIsFree(cfg: Config, w: World, now: int, lastCheck: Instant)
    requires Invariant(cfg, w, now)
    ensures Invariant(cfg, w.(lastCheck := lastCheck), now)
  {
    var v := w.(lastCheck := lastCheck);
    forall uid ensures UserInvariant(cfg, StateOf(v, uid), Seen(v, uid), now) {
      assert UserInvariant(cfg, StateOf(w, uid), Seen(w, uid), now);
    }
  }

  lemma LastInvariant(cfg: Config, es: seq<Event>, uid: Uid) returns (now: int)
    requires Timely(es)
    ensures UserInvariant(cfg, StateOf(Run(cfg, es), uid), Seen(Run(cfg, es), uid), now)
  {
    now := if es == [] then 0 else es[|es| - 1].now;
    RunKeepsInvariant(cfg, es, now);
  }

  /** In every run no user gets more than IO_BOOST_MAX_PER_HOUR boosts in any window of one hour. */
  lemma BoostRateIsLimited(cfg: Config, es: seq<Event>, uid: Uid)
    requires Timely(es)
    ensures var bs := Boosts(Seen(Run(cfg, es), uid));
            forall i, j | 0 <= i <= j < |bs| && bs[j] - bs[i] <= HOUR :: j - i + 1 <= cfg.boostMaxPerHour
  {
    var now := LastInvariant(cfg, es, uid);
  }

  /** BoostCount covers the boosts of the last hour and never exceeds the cap. */
  lemma BoostCountIsExact(cfg: Config, es: seq<Event>, uid: Uid)
    requires Timely(es) && es != []
    ensures var b, bs := StateOf(Run(cfg, es), uid), Boosts(Seen(Run(cfg, es), uid));
            && b.count <= Cap(cfg) && b.count <= |bs|
            && forall i | 0 <= i < |bs| && es[|es| - 1].now - bs[i] <= HOUR :: i >= |bs| - b.count
  {
    RunKeepsInvariant(cfg, es, es[|es| - 1].now);
  }

  /**
    A boost at time t means that since some check at or before t - IO_STARVATION_THRESHOLD
    every readable check found pressure; two boosts are at least that long apart; a boost
    in force has equal start and last-boost times.
  */
  lemma BoostNeedsStarvation(cfg: Config, es: seq<Event>, uid: Uid)
    requires Timely(es)
    ensures var w := Run(cfg, es);
            var h := Seen(w, uid);
            && (forall n | 0 <= n < |h| && h[n].boosted :: BoostExplained(cfg, h, n))
            && Spaced(cfg, Boosts(h))
            && (StateOf(w, uid).active ==> StateOf(w, uid).start == StateOf(w, uid).last != None)
  {
    var now := LastInvariant(cfg, es, uid);
  }

  // ------------------------------------------------------- one turn of one user

  /** The pressure could be read and is at or above the threshold. */
  predicate Pressed(cfg: Config, c: Check) { c.psi.Some? && c.psi.value >= cfg.psiThreshold }

  /** Since when the user is under pressure, counting this check. */
  function Since(b: Boost, now: int): int { if b.starvedSince.None? then now else b.starvedSince.value }

  /** What it takes to boost a user. */
  predicate BoostDue(cfg: Config, now: int, b: Boost, c: Check) {
    && Pressed(cfg, c) && !b.active && now - Since(b, now) >= cfg.starvationThreshold * SECOND
    && b.count < cfg.boostMaxPerHour && c.removeOk
  }

  /** What ends a boost in force: its duration under pressure, or a calm reading if that is configured. */
  predicate BoostOver(cfg: Config, now: int, b: Boost, c: Check) {
    && b.active && c.psi.Some?
    && if Pressed(cfg, c) then b.start.Some? ==> now - b.start.value >= cfg.boostDuration * SECOND
       else cfg.revertOnNormal
  }

  /** The world before turn `k` of a check that comes after the run. */
  function BeforeTurn(cfg: Config, es: seq<Event>, now: int, checks: seq<Check>, k: nat): World
    requires k <= |checks|
  {
    ObserveAll(cfg, now, Run(cfg, es).(lastCheck := Some(now)), checks[..k])
  }

  /** Checks are due when they are enabled and their interval has passed. */
  predicate CheckDue(cfg: Config, w: World, now: int) {
    cfg.enabled && (w.lastCheck.Some? ==> now - w.lastCheck.value >= cfg.checkInterval * SECOND)
  }

  /** A check that is due takes one turn after the other, and one that is not due does nothing. */
  lemma CheckTakesTurns(cfg: Config, es: seq<Event>, now: int, checks: seq<Check>)
    ensures Run(cfg, es + [CheckEvent(now, checks)])
         == if CheckDue(cfg, Run(cfg, es), now) then BeforeTurn(cfg, es, now, checks, |checks|) else Run(cfg, es)
  {
    assert (es + [CheckEvent(now, checks)])[..|es|] == es && checks[..|checks|] == checks;
  }

  /**
    In every run each turn boosts exactly when a boost is due. A boost starts now and counts; one
    in force ends exactly when it is over, and takes the timer with it; the timer runs exactly
    while every readable check finds pressure. An unreadable check, and other users' checks,
    change nothing.
  */
  lemma TurnIs(cfg: Config, es: seq<Event>, now: int, checks: seq<Check>, k: nat)
    requires k < |checks|
    ensures var w, after, c := BeforeTurn(cfg, es, now, checks, k), BeforeTurn(cfg, es, now, checks, k + 1), checks[k];
            var b, n := StateOf(w, c.uid), StateOf(after, c.uid);
            var due, over := BoostDue(cfg, now, b, c), BoostOver(cfg, now, b, c);
            && (c.psi.None? ==> n == b && Seen(after, c.uid) == Seen(w, c.uid))
            && (c.psi.Some? ==> Seen(after, c.uid) == Seen(w, c.uid) + [Observation(now, Pressed(cfg, c), due)])
            && (n.active <==> due || (b.active && !over))
            && n.count == (if due then b.count + 1 else b.count)
            && n.last == (if due then Some(now) else b.last) && n.start == (if due then Some(now) else b.start)
            && (c.psi.Some? ==> n.starvedSince == if Pressed(cfg, c) && !over then Some(Since(b, now)) else None)
            && forall u | u != c.uid :: StateOf(after, u) == StateOf(w, u) && Seen(after, u) == Seen(w, u)
  {
    assert checks[..k + 1][..k] == checks[..k];
    hide Run, ObserveAll;
  }

  /**
    A cleanup drops the users without a boost in force or in the last `maxAge`, and resets the
    counts of those without a boost in the last hour.
  */
  lemma CleanupIs(cfg: Config, es: seq<Event>, now: int, maxAge: int, uid: Uid)
    ensures var w, after := Run(cfg, es), Run(cfg, es + [CleanupEvent(now, maxAge)]);
            && (uid in after.states
                <==> && uid in w.states
                     && (w.states[uid].active || (w.states[uid].last.Some? && now - w.states[uid].last.value <= maxAge)))
            && (uid in after.states ==>
                  var b := w.states[uid];
                  after.states[uid]
                  == b.(count := if b.last.Some? && now - b.last.value <= 3600 * SECOND then b.count else 0))
            && after.seen == w.seen && after.lastCheck == w.lastCheck
  {
    assert (es + [CleanupEvent(now, maxAge)])[..|es|] == es;
  }
}
