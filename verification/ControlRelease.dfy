/** When limits go away: bounded release under calm readings. */
module ControlRelease {
  import opened Common
  import opened ControlModel
  import opened ControlInvariants
  import opened ControlTiming

  // ------------------------------------------------------- bounded release

  /** A reading under which limits should go away. */
  datatype Calm = Calm(reading: Metrics, limited: set<Uid>, ema: map<Uid, real>)

  predicate IsCalm(cfg: Config, c: Calm) {
    && AllBelow(cfg, c.reading) && !c.reading.underLoad
    && forall uid | uid in c.limited :: uid in c.ema && c.ema[uid] < cfg.cpuRelease as real
  }

  /** A cycle that sees `c` if it sees anything, or an event that leaves the limits alone. */
  predicate SeesCalm(c: Calm, e: Event) {
    match e
    case Cycle(i) => Evaluated(i) ==> i.reading == Some(c.reading) && i.limited == c.limited && i.ema == c.ema
    case PsiEvent(_, _, _) => true
    case Refresh => true
    case Finish(_, _) => true
    case _ => false
  }

  /** The cycle also gets through to a decision, and can create the cgroups it needs. */
  predicate CalmEvent(c: Calm, e: Event) {
    SeesCalm(c, e) && (e.Cycle? ==> Evaluated(e.input) && BusyUsers(c.reading) !! e.input.effects.createFails)
  }

  /** Either released, or: busy users are limited, limits date from `t` or before, each user has `k` good samples. */
  ghost predicate Settled(cfg: Config, c: Calm, s: State, t: int, k: nat) {
    && s.cfg == cfg && Consistent(s)
    && (s.limitsActive ==>
          && BusyUsers(c.reading) <= s.activeUsers
          && s.appliedAt.value <= t
          && forall uid | uid in c.limited :: Lookup(s.under, uid, 0) >= k)
  }

  lemma CalmNeverActivates(cfg: Config, c: Calm, s: State, i: CycleInput)
    requires ValidThresholds(cfg) && IsCalm(cfg, c) && s.cfg == cfg && SeesCalm(c, Cycle(i)) && Evaluated(i)
    requires !s.limitsActive
    ensures !RunCycle(s, i).limitsActive
  {
    DecideKeepsTables(s, c.reading, c.limited, c.ema, i.clock.decide);
    assert CycleDecision(s, i).0 == Maintain;
  }

  /** The first calm cycle adds the busy users; no later one adds anybody. */
  lemma CalmCycleSettles(cfg: Config, c: Calm, s: State, i: CycleInput, t: int)
    requires ValidThresholds(cfg) && IsCalm(cfg, c) && s.cfg == cfg && Consistent(s) && CalmEvent(c, Cycle(i))
    requires i.clock.apply <= t && (s.limitsActive ==> s.appliedAt.value <= t)
    ensures Settled(cfg, c, Step(s, Cycle(i)), t, 0)
  {
    hide Decide, Execute, Consistent, IsCalm, ValidThresholds, BusyUsers, RevertBoosts;
    StepKeepsConsistent(s, Cycle(i));
    DecideKeepsConsistent(s, i);
    DecideKeepsTables(s, c.reading, c.limited, c.ema, i.clock.decide);
    var (d, decided) := CycleDecision(s, i);
    ExecuteSummary(decided, d, c.reading, i.effects, i.clock.apply);
    CycleSummary(s, i);
    if !s.limitsActive {
      CalmNeverActivates(cfg, c, s, i);
    } else if d == Maintain {
      CalmReleaseSettles(c, decided, i.effects, i.clock.apply);
    }
    CountsArePositive(Step(s, Cycle(i)));
  }

  lemma CountsArePositive(s: State)
    requires Consistent(s)
    ensures forall uid :: Lookup(s.under, uid, 0) >= 0
    ensures s.limitsActive <==> s.appliedAt.Some?
  {
  }

  /** A maintain cycle limits every busy user whose creation works. */
  lemma CalmReleaseSettles(c: Calm, s: State, effects: Effects, now: int)
    requires Consistent(s) && s.limitsActive && BusyUsers(c.reading) !! effects.createFails
    ensures BusyUsers(c.reading) <= Execute(s, Maintain, c.reading, effects, now).1.activeUsers
  {
    assert BusyUsers(c.reading) !! IdleUsers(s, c.reading);
  }

  /** Samples of calm cycles only add up. */
  lemma CalmCounts(cfg: Config, c: Calm, s: State, i: CycleInput)
    requires IsCalm(cfg, c) && s.cfg == cfg && SeesCalm(c, Cycle(i)) && Evaluated(i) && s.limitsActive
    ensures forall uid | uid in c.limited ::
              Lookup(CycleDecision(s, i).1.under, uid, 0)
              == Lookup(s.under, uid, 0) + if Waiting(s, i.clock.decide) then 0 else 1
    ensures CycleDecision(s, i).0 == Deactivate
            <==> !Waiting(s, i.clock.decide) && Stable(CycleDecision(s, i).1.under, c.limited)
    ensures CycleDecision(s, i).0 != Activate
  {
    hide CycleDecision;
    CalmDecision(cfg, c, s, i);
    forall uid | uid in c.limited
      ensures Lookup(CycleDecision(s, i).1.under, uid, 0)
              == Lookup(s.under, uid, 0) + if Waiting(s, i.clock.decide) then 0 else 1
    {
      DecideCounts(s, i, uid);
    }
  }

  lemma CalmDecision(cfg: Config, c: Calm, s: State, i: CycleInput)
    requires IsCalm(cfg, c) && s.cfg == cfg && SeesCalm(c, Cycle(i)) && Evaluated(i) && s.limitsActive
    ensures CycleDecision(s, i).0 == Deactivate
            <==> !Waiting(s, i.clock.decide) && Stable(CycleDecision(s, i).1.under, c.limited)
    ensures CycleDecision(s, i).0 != Activate
  {
    hide CountSamples, Stable;
  }

  /** With every busy user limited already, a maintain cycle adds nobody. */
  lemma CalmMaintain(c: Calm, s: State, effects: Effects, now: int)
    requires s.limitsActive && BusyUsers(c.reading) <= s.activeUsers
    ensures var after := ReleaseIdle(s, c.reading, effects, now);
            after.limitsActive && BusyUsers(c.reading) <= after.activeUsers <= s.activeUsers
            && after.appliedAt == s.appliedAt && after.under == s.under
  {
    assert BusyUsers(c.reading) !! IdleUsers(s, c.reading);
    assert BusyUsers(c.reading) - s.activeUsers - effects.createFails == {};
  }

  /** A settled state stays settled, and a cycle that passes the gate gains a sample or releases. */
  lemma CalmCycleKeeps(cfg: Config, c: Calm, s: State, i: CycleInput, t: int, k: nat)
    requires ValidThresholds(cfg) && IsCalm(cfg, c) && CalmEvent(c, Cycle(i)) && Settled(cfg, c, s, t, k)
    ensures Settled(cfg, c, RunCycle(s, i), t, k)
    ensures i.clock.decide >= t + cfg.minActiveTime * SECOND ==>
              Settled(cfg, c, RunCycle(s, i), t, k + 1) && (k >= 2 ==> !RunCycle(s, i).limitsActive)
    ensures !s.limitsActive ==> !RunCycle(s, i).limitsActive
  {
    hide RunCycle, CycleDecision, Execute, Consistent;
    CycleKeepsConsistent(s, i);
    CycleIs(s, i);
    if !s.limitsActive {
      CalmNeverActivates(cfg, c, s, i);
    } else {
      CalmCounts(cfg, c, s, i);
      CycleSummary(s, i);
      var (d, decided) := CycleDecision(s, i);
      if d == Maintain {
        MaintainIs(decided, c.reading, i.effects, i.clock.apply);
        CalmMaintain(c, decided, i.effects, i.clock.apply);
      }
      HasStart(s);
    }
  }

  lemma MaintainIs(s: State, m: Metrics, effects: Effects, now: int)
    ensures Execute(s, Maintain, m, effects, now).1 == ReleaseIdle(s, m, effects, now)
  {
    hide ReleaseIdle;
  }

  lemma HasStart(s: State)
    requires Consistent(s) && s.limitsActive
    ensures s.appliedAt.Some?
  {
  }

  lemma CalmEventKeeps(cfg: Config, c: Calm, s: State, e: Event, t: int, k: nat)
    requires ValidThresholds(cfg) && IsCalm(cfg, c) && CalmEvent(c, e) && Settled(cfg, c, s, t, k)
    ensures Settled(cfg, c, Step(s, e), t, k)
    ensures e.Cycle? && e.input.clock.decide >= t + cfg.minActiveTime * SECOND ==>
              Settled(cfg, c, Step(s, e), t, k + 1) && (k >= 2 ==> !Step(s, e).limitsActive)
    ensures !s.limitsActive ==> !Step(s, e).limitsActive
  {
    hide RunCycle;
    if e.Cycle? {
      CalmCycleKeeps(cfg, c, s, e.input, t, k);
    } else {
      StepKeepsConsistent(s, e);
    }
  }

  lemma {:induction false} CalmRunKeeps(cfg: Config, c: Calm, s: State, es: seq<Event>, a: nat, b: nat, t: int, k: nat)
    requires ValidThresholds(cfg) && IsCalm(cfg, c) && a <= b <= |es|
    requires forall n | a <= n < b :: CalmEvent(c, es[n])
    requires Settled(cfg, c, At(s, es, a), t, k)
    ensures Settled(cfg, c, At(s, es, b), t, k)
    ensures !At(s, es, a).limitsActive ==> !At(s, es, b).limitsActive
  {
    hide Step, At;
    if a < b {
      CalmRunKeeps(cfg, c, s, es, a, b - 1, t, k);
      AtNext(s, es, b - 1);
      CalmEventKeeps(cfg, c, At(s, es, b - 1), es[b - 1], t, k);
    }
  }

  // ------------------------------------------------------- counted in cycles

  /** The event is a cycle that finds limits active for at least MIN_ACTIVE_TIME. */
  predicate PassesGate(s: State, e: Event) {
    e.Cycle? && Evaluated(e.input) && s.limitsActive && !Waiting(s, e.input.clock.decide)
  }

  function GatesPassed(s: State, es: seq<Event>): nat {
    if es == [] then 0
    else
      var before := es[..|es| - 1];
      GatesPassed(s, before) + if PassesGate(Run(s, before), es[|es| - 1]) then 1 else 0
  }

  /** Until they are released, limits gain a low sample of every limited user whenever the gate is passed. */
  ghost predicate Counting(cfg: Config, c: Calm, s: State, k: nat) {
    && s.cfg == cfg && Consistent(s) && k <= 3
    && (s.limitsActive ==> k <= 2 && forall uid | uid in c.limited :: Lookup(s.under, uid, 0) >= k)
  }

  lemma CountingCycle(cfg: Config, c: Calm, s: State, i: CycleInput, k: nat)
    requires ValidThresholds(cfg) && IsCalm(cfg, c) && SeesCalm(c, Cycle(i)) && Evaluated(i) && Counting(cfg, c, s, k)
    ensures Counting(cfg, c, RunCycle(s, i), if PassesGate(s, Cycle(i)) then k + 1 else k)
  {
    hide RunCycle, CycleDecision, Consistent;
    CycleKeepsConsistent(s, i);
    CycleIs(s, i);
    if s.limitsActive {
      CalmCounts(cfg, c, s, i);
    } else {
      CalmNeverActivates(cfg, c, s, i);
    }
  }

  lemma CountingStep(cfg: Config, c: Calm, s: State, e: Event, k: nat)
    requires ValidThresholds(cfg) && IsCalm(cfg, c) && SeesCalm(c, e) && Counting(cfg, c, s, k)
    ensures Counting(cfg, c, Step(s, e), if PassesGate(s, e) then k + 1 else k)
  {
    hide RunCycle;
    if e.Cycle? {
      if Evaluated(e.input) {
        CountingCycle(cfg, c, s, e.input, k);
      } else {
        IdleCycle(s, e.input);
      }
    } else {
      StepKeepsConsistent(s, e);
    }
  }

  /**
    Bounded release. In any run of calm readings from any consistent state, whatever cgroup
    calls fail, at most three cycles find the limits active for MIN_ACTIVE_TIME, and after
    the third they are released.
  */
  lemma {:induction false} AtMostThreeGates(cfg: Config, c: Calm, s: State, es: seq<Event>)
    requires ValidThresholds(cfg) && IsCalm(cfg, c) && s.cfg == cfg && Consistent(s)
    requires forall e | e in es :: SeesCalm(c, e)
    ensures Counting(cfg, c, Run(s, es), GatesPassed(s, es))
    ensures GatesPassed(s, es) <= 3 && (GatesPassed(s, es) == 3 ==> !Run(s, es).limitsActive)
  {
    hide Step, PassesGate;
    if es == [] {
      CountsArePositive(s);
    } else {
      var before, e := es[..|es| - 1], es[|es| - 1];
      assert e in es && forall x | x in before :: x in es;
      AtMostThreeGates(cfg, c, s, before);
      CountingStep(cfg, c, Run(s, before), e, GatesPassed(s, before));
    }
  }

  // ------------------------------------------------------- nobody is added later

  lemma SettledAddsNobody(cfg: Config, c: Calm, s: State, e: Event, t: int)
    requires ValidThresholds(cfg) && IsCalm(cfg, c) && CalmEvent(c, e) && Settled(cfg, c, s, t, 0)
    ensures var after := Step(s, e);
            && after.activeUsers <= s.activeUsers
            && after.appliedAt == (if after.limitsActive then s.appliedAt else None)
  {
    hide RunCycle, CycleDecision, Execute, Consistent;
    HasStartIff(s);
    if e.Cycle? {
      var i := e.input;
      CycleIs(s, i);
      CycleSummary(s, i);
      CycleKeepsConsistent(s, i);
      HasStartIff(RunCycle(s, i));
      if s.limitsActive {
        CalmCounts(cfg, c, s, i);
        var (d, decided) := CycleDecision(s, i);
        if d == Maintain {
          MaintainIs(decided, c.reading, i.effects, i.clock.apply);
          CalmMaintain(c, decided, i.effects, i.clock.apply);
        }
      } else {
        CalmNeverActivates(cfg, c, s, i);
      }
    }
  }

  lemma HasStartIff(s: State)
    requires Consistent(s)
    ensures (s.limitsActive <==> s.appliedAt.Some?) && (!s.limitsActive ==> s.activeUsers == {})
  {
  }

  /** After the first calm cycle no event adds a user or moves the gate, for as long as the readings stay calm. */
  lemma NobodyAddedLater(cfg: Config, c: Calm, s: State, es: seq<Event>, a: nat, n: nat)
    requires ValidThresholds(cfg) && IsCalm(cfg, c) && s.cfg == cfg && Consistent(s)
    requires forall k | 0 <= k < |es| :: CalmEvent(c, es[k])
    requires a < n < |es| && es[a].Cycle?
    ensures var before, after := At(s, es, n), At(s, es, n + 1);
            && after.activeUsers <= before.activeUsers
            && after.appliedAt == (if after.limitsActive then before.appliedAt else None)
  {
    hide Step, At;
    CalmPrefix(cfg, c, s, es, a);
    var at := At(s, es, a);
    var apply := es[a].input.clock.apply;
    var t := if at.limitsActive && at.appliedAt.value > apply then at.appliedAt.value else apply;
    CalmCycleSettles(cfg, c, at, es[a].input, t);
    AtNext(s, es, a);
    CalmRunKeeps(cfg, c, s, es, a + 1, n, t, 0);
    AtNext(s, es, n);
    SettledAddsNobody(cfg, c, At(s, es, n), es[n], t);
  }

  lemma CalmPrefix(cfg: Config, c: Calm, s: State, es: seq<Event>, n: nat)
    requires ValidThresholds(cfg) && IsCalm(cfg, c) && s.cfg == cfg && Consistent(s)
    requires n <= |es| && forall k | 0 <= k < |es| :: CalmEvent(c, es[k])
    ensures At(s, es, n).cfg == cfg && Consistent(At(s, es, n))
    ensures At(s, es, n).limitsActive ==> At(s, es, n).appliedAt.Some?
  {
    hide Step, GatesPassed;
    forall e | e in es[..n] ensures SeesCalm(c, e) {
      var k :| 0 <= k < n && e == es[..n][k];
      assert CalmEvent(c, es[k]);
    }
    AtMostThreeGates(cfg, c, s, es[..n]);
  }

  // ------------------------------------------------------- counted in time

  /**
    The same in time. From any consistent state whose limits date from before the run,
    under constant calm readings: after the first cycle `x[0]`, the third cycle that comes
    at least MIN_ACTIVE_TIME later finds the limits released or releases them, and they
    stay released to the end of the run.
  */
  lemma LimitsAreReleased(cfg: Config, c: Calm, s: State, es: seq<Event>, x: seq<nat>)
    requires ValidThresholds(cfg) && IsCalm(cfg, c) && s.cfg == cfg && Consistent(s)
    requires forall e | e in es :: CalmEvent(c, e)
    requires |x| == 4 && x[0] < x[1] < x[2] < x[3] < |es|
    requires forall n | 0 <= n < 4 :: es[x[n]].Cycle?
    requires forall n | 0 <= n < x[0] :: !es[n].Cycle?
    requires s.limitsActive ==> s.appliedAt.value <= es[x[0]].input.clock.apply
    requires forall n | 0 < n < 4 ::
               es[x[n]].input.clock.decide >= es[x[0]].input.clock.apply + cfg.minActiveTime * SECOND
    ensures !Run(s, es).limitsActive
  {
    hide Step, At;
    var t := es[x[0]].input.clock.apply;
    forall n | 0 <= n < |es| ensures CalmEvent(c, es[n]) {
      assert es[n] in es;
    }
    NothingBeforeFirstCycle(cfg, c, s, es, x[0]);
    AtNext(s, es, x[0]);
    CalmCycleSettles(cfg, c, At(s, es, x[0]), es[x[0]].input, t);
    CalmRunKeeps(cfg, c, s, es, x[0] + 1, x[1], t, 0);
    AtNext(s, es, x[1]);
    CalmEventKeeps(cfg, c, At(s, es, x[1]), es[x[1]], t, 0);
    CalmRunKeeps(cfg, c, s, es, x[1] + 1, x[2], t, 1);
    AtNext(s, es, x[2]);
    CalmEventKeeps(cfg, c, At(s, es, x[2]), es[x[2]], t, 1);
    CalmRunKeeps(cfg, c, s, es, x[2] + 1, x[3], t, 2);
    AtNext(s, es, x[3]);
    CalmEventKeeps(cfg, c, At(s, es, x[3]), es[x[3]], t, 2);
    CalmRunKeeps(cfg, c, s, es, x[3] + 1, |es|, t, 0);
    AtEnd(s, es);
  }

  lemma AtEnd(s: State, es: seq<Event>)
    ensures At(s, es, |es|) == Run(s, es)
  {
    assert es[..|es|] == es;
  }

  lemma {:induction false} NothingBeforeFirstCycle(cfg: Config, c: Calm, s: State, es: seq<Event>, n: nat)
    requires n <= |es| && Consistent(s) && s.cfg == cfg
    requires forall k | 0 <= k < n :: CalmEvent(c, es[k]) && !es[k].Cycle?
    ensures var after := At(s, es, n);
            Consistent(after) && after.cfg == cfg && after.limitsActive == s.limitsActive && after.appliedAt == s.appliedAt
  {
    hide RunCycle, ActivateLimits, At;
    if n == 0 {
      AtStart(s, es);
    } else {
      NothingBeforeFirstCycle(cfg, c, s, es, n - 1);
      AtNext(s, es, n - 1);
      StepKeepsConsistent(At(s, es, n - 1), es[n - 1]);
    }
  }
}
