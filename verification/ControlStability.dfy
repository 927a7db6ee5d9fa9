/** How far a deactivation rests on the active period that it ends. */
module ControlStability {
  import opened Common
  import opened ControlFailures
  import opened ControlModel
  import opened ControlInvariants
  import opened ControlTiming

  ghost predicate StaysActive(s: State, es: seq<Event>) { forall k: nat | k <= |es| :: At(s, es, k).limitsActive }

  // ------------------------------------------------------- counters of one period

  /** The counter after some samples, if it started there. */
  function CountFrom(start: int, ss: seq<Sample>): int {
    TrailingBelow(ss) + if TrailingBelow(ss) == |ss| then start else 0
  }

  lemma {:induction false} TrailingIsPart(ss: seq<Sample>)
    ensures TrailingBelow(ss) <= |ss|
  {
    if ss != [] {
      TrailingIsPart(ss[..|ss| - 1]);
    }
  }

  lemma CountNext(start: int, ss: seq<Sample>, x: Sample)
    ensures CountFrom(start, ss + [x]) == if x.below then CountFrom(start, ss) + 1 else 0
  {
    assert (ss + [x])[..|ss|] == ss;
  }

  lemma CycleCounts(s: State, es: seq<Event>, i: CycleInput, uid: Uid, start: int)
    requires Evaluated(i) && Lookup(Run(s, es).under, uid, 0) == CountFrom(start, Samples(s, es, uid))
    ensures Lookup(CycleDecision(Run(s, es), i).1.under, uid, 0) == CountFrom(start, SamplesWith(s, es, i, uid))
  {
    hide CycleDecision, Samples, TakesSamples, CountFrom, Run;
    DecideCounts(Run(s, es), i, uid);
    CountNext(start, Samples(s, es, uid), Sample(|es|, Sampled(i, uid) && i.ema[uid] < Run(s, es).cfg.cpuRelease as real));
  }

  /** While limits stay active, a counter goes on from where it was until a sample is not below. */
  lemma {:induction false} CountersGoOn(s: State, es: seq<Event>, uid: Uid)
    requires StaysActive(s, es)
    ensures Lookup(Run(s, es).under, uid, 0) == CountFrom(Lookup(s.under, uid, 0), Samples(s, es, uid))
  {
    hide RunCycle, CycleDecision, ActivateLimits, DeactivateLimits, SamplesWith;
    if es != [] {
      var before, e := es[..|es| - 1], es[|es| - 1];
      forall k: nat | k <= |before| ensures At(s, before, k).limitsActive {
        assert before[..k] == es[..k] && At(s, es, k).limitsActive;
      }
      CountersGoOn(s, before, uid);
      assert es[..|es|] == es && At(s, es, |es|).limitsActive;
      StepCounts(s, before, e, uid);
      assert before + [e] == es;
    }
  }

  lemma StepCounts(s: State, es: seq<Event>, e: Event, uid: Uid)
    requires Lookup(Run(s, es).under, uid, 0) == CountFrom(Lookup(s.under, uid, 0), Samples(s, es, uid))
    requires Step(Run(s, es), e).limitsActive
    ensures Lookup(Step(Run(s, es), e).under, uid, 0)
         == CountFrom(Lookup(s.under, uid, 0), Samples(s, es + [e], uid))
  {
    assert (es + [e])[..|es|] == es;
    var t := Run(s, es);
    hide RunCycle, CycleDecision, ActivateLimits, DeactivateLimits, SamplesWith, CountFrom, Run;
    match e {
      case Cycle(i) =>
        if Evaluated(i) {
          CycleCounts(s, es, i, uid, Lookup(s.under, uid, 0));
          ExecuteCounts(t, i, uid);
          CycleIs(t, i);
        } else {
          IdleCycle(t, i);
          NoSample(s, es, i, uid);
        }
      case ForceActivate(r, fx, now) =>
        if r.Some? {
          ActivateOnlyAdds(t, r.value, fx, now);
        }
      case ForceDeactivate(fx) =>
        DeactivateSummary(t, fx);
      case _ =>
    }
  }

  // ------------------------------------------------------- a quiet user

  /** A reading in which the one user does nothing. */
  function Quiescent(uid: Uid): Metrics { Metrics(4, 0.0, 0, 0, 1024.0, false, map[uid := 0.0], {uid}) }

  function QuietCycle(uid: Uid, now: int): CycleInput {
    CycleInput(false, Some(Quiescent(uid)), {uid}, Quiescent(uid).userCPU, NoFailures({}), Clock(now, now, now))
  }

  lemma QuietIsBelow(cfg: Config, uid: Uid)
    requires ValidThresholds(cfg)
    ensures AllBelow(cfg, Quiescent(uid))
  {
    NoIOIsBelow(cfg, Quiescent(uid));
    if cfg.ramEnabled {
      assert RAMPercent(Quiescent(uid)) == 0.0;
    }
    hide IOBelow;
  }

  /** Past the gate a quiet cycle takes a low sample, and the third of them deactivates. */
  lemma QuietDecision(s: State, uid: Uid, now: int)
    requires s.limitsActive && !Waiting(s, now) && ValidThresholds(s.cfg)
    ensures var (d, decided) := CycleDecision(s, QuietCycle(uid, now));
            && TakesSamples(s, QuietCycle(uid, now))
            && Lookup(decided.under, uid, 0) == Lookup(s.under, uid, 0) + 1
            && d == (if Lookup(s.under, uid, 0) >= 2 then Deactivate else Maintain)
  {
    QuietIsBelow(s.cfg, uid);
    DecideCounts(s, QuietCycle(uid, now), uid);
    hide AllBelow, ObserveIO;
  }

  lemma QuietRelease(s: State, uid: Uid, effects: Effects, now: int)
    requires s.limitsActive
    ensures var after := ReleaseIdle(s, Quiescent(uid), effects, now);
            && after == s.(activeUsers := {}, boostedAt := after.boostedAt, monitors := after.monitors,
                           releasing := after.releasing)
  {
    assert IdleUsers(s, Quiescent(uid)) == s.activeUsers;
    assert BusyUsers(Quiescent(uid)) - s.activeUsers - effects.createFails == {};
    hide IdleUsers, BusyUsers, Watch, Unwatch;
    assert multiset(var none: set<Uid> := {}; none) == multiset{};
  }

  /** It releases everybody, and nothing else about the period changes. */
  lemma QuietMaintains(s: State, uid: Uid, now: int)
    requires s.limitsActive && !Waiting(s, now) && ValidThresholds(s.cfg) && Lookup(s.under, uid, 0) < 2
    ensures var after := RunCycle(s, QuietCycle(uid, now));
            && after.limitsActive && after.activeUsers == {} && after.appliedAt == s.appliedAt && after.cfg == s.cfg
            && Lookup(after.under, uid, 0) == Lookup(s.under, uid, 0) + 1
  {
    var i := QuietCycle(uid, now);
    QuietDecision(s, uid, now);
    CycleIs(s, i);
    CycleSummary(s, i);
    QuietRelease(CycleDecision(s, i).1, uid, i.effects, now);
    hide RunCycle, CycleDecision, ReleaseIdle, TakesSamples;
  }

  // ------------------------------------------------------- three samples of one period

  /** A deactivation ends the period with fewer than three samples of the user in it. */
  ghost predicate EndsEarly(s: State, es: seq<Event>, i: CycleInput, uid: Uid) {
    && StaysActive(s, es) && Evaluated(i) && uid in i.limited
    && CycleDecision(Run(s, es), i).0 == Deactivate && |SamplesWith(s, es, i, uid)| < 3
  }

  /**
    The period of active limits that state `s` begins can be ended with fewer than three samples
    of a user in it exactly if the user's counter is not zero to begin with.
  */
  lemma EndsEarlyIff(s: State, uid: Uid)
    requires Consistent(s) && s.limitsActive && ValidThresholds(s.cfg)
    ensures (exists es, i :: EndsEarly(s, es, i, uid)) <==> Lookup(s.under, uid, 0) > 0
  {
    if es, i :| EndsEarly(s, es, i, uid) {
      CountersGoOn(s, es, uid);
      CycleCounts(s, es, i, uid, Lookup(s.under, uid, 0));
      DeactivateIsStable(Run(s, es), i, uid);
      TrailingIsPart(SamplesWith(s, es, i, uid));
    }
    if Lookup(s.under, uid, 0) > 0 {
      var now := s.appliedAt.value + s.cfg.minActiveTime * SECOND;
      QuietDecision(s, uid, now);
      if Lookup(s.under, uid, 0) >= 2 {
        OneSampleEnds(s, uid, now);
      } else {
        QuietMaintains(s, uid, now);
        TwoSamplesEnd(s, uid, now);
      }
    }
  }

  lemma OneSampleEnds(s: State, uid: Uid, now: int)
    requires s.limitsActive && CycleDecision(s, QuietCycle(uid, now)).0 == Deactivate
    ensures EndsEarly(s, [], QuietCycle(uid, now), uid)
  {
    hide CycleDecision, TakesSamples;
    assert Samples(s, [], uid) == [];
  }

  lemma TwoSamplesEnd(s: State, uid: Uid, now: int)
    requires s.limitsActive && !Waiting(s, now) && ValidThresholds(s.cfg) && Lookup(s.under, uid, 0) == 1
    ensures EndsEarly(s, [Cycle(QuietCycle(uid, now))], QuietCycle(uid, now), uid)
  {
    var i := QuietCycle(uid, now);
    var es := [Cycle(i)];
    QuietMaintains(s, uid, now);
    OneCycleRun(s, i, uid);
    hide RunCycle, CycleDecision, TakesSamples, At, Samples, Run, QuietCycle;
    QuietDecision(Run(s, es), uid, now);
  }

  lemma OneCycleRun(s: State, i: CycleInput, uid: Uid)
    requires s.limitsActive && RunCycle(s, i).limitsActive
    ensures Run(s, [Cycle(i)]) == RunCycle(s, i) && StaysActive(s, [Cycle(i)])
    ensures |Samples(s, [Cycle(i)], uid)| <= 1
  {
    var es := [Cycle(i)];
    hide RunCycle, CycleDecision, TakesSamples;
    AtStart(s, es);
    AtNext(s, es, 0);
    assert es[..1] == es && es[..0] == [];
    assert Samples(s, es[..0], uid) == [];
  }

  /** A deactivation clears the counter of exactly those users that were still limited. */
  lemma CounterIsClearedIff(s: State, i: CycleInput, uid: Uid)
    requires Evaluated(i) && CycleDecision(s, i).0 == Deactivate && uid in i.limited
    ensures Lookup(RunCycle(s, i).under, uid, 0) == 0 <==> uid in s.activeUsers
  {
    ExecuteCounts(s, i, uid);
    DeactivateIsStable(s, i, uid);
    hide RunCycle, CycleDecision;
  }

  // ------------------------------------------------------- a period of one cycle

  /** A cycle that activates limits for the CPU at once. */
  function HotCycle(cfg: Config, uid: Uid, now: int): CycleInput {
    FailingActivation(cfg, uid, now).(effects := NoFailures({}))
  }

  lemma HotEnrolment(s: State, cfg: Config, uid: Uid, now: int)
    requires s.activeUsers == {}
    ensures var after := ActivateLimits(s, Hot(cfg, uid), NoFailures({}), now).1;
            after.limitsActive && after.appliedAt == Some(now) && after.activeUsers == {uid}
  {
    assert s.activeUsers * Hot(cfg, uid).userCPU.Keys == {};
    assert Hot(cfg, uid).eligible - {} - {} == {uid};
    hide Watch;
  }

  lemma HotActivates(s: State, uid: Uid, now: int)
    requires !s.limitsActive && s.activeUsers == {} && ValidThresholds(s.cfg) && s.cfg.cpuDuration == 0
    ensures var after := RunCycle(s, HotCycle(s.cfg, uid, now));
            && after.limitsActive && after.appliedAt == Some(now) && after.cfg == s.cfg && after.activeUsers == {uid}
            && after.under == s.under
  {
    var i := HotCycle(s.cfg, uid, now);
    HotDecision(s, i);
    CycleIs(s, i);
    CycleSummary(s, i);
    HotUnder(s, i);
    HotEnrolment(CycleDecision(s, i).1, s.cfg, uid, now);
    hide RunCycle, CycleDecision, ActivateLimits;
  }

  lemma HotUnder(s: State, i: CycleInput)
    requires Evaluated(i) && !s.limitsActive
    ensures CycleDecision(s, i).1.under == s.under
  {
    hide ObserveIO, RAMExceeded;
  }

  lemma QuietDeactivates(s: State, uid: Uid, now: int)
    requires s.limitsActive && !Waiting(s, now) && ValidThresholds(s.cfg) && Lookup(s.under, uid, 0) >= 2
    ensures var after := RunCycle(s, QuietCycle(uid, now));
            && !after.limitsActive && after.activeUsers == {} && after.cfg == s.cfg
            && (uid !in s.activeUsers ==> Lookup(after.under, uid, 0) == Lookup(s.under, uid, 0) + 1)
  {
    var i := QuietCycle(uid, now);
    QuietDecision(s, uid, now);
    CycleIs(s, i);
    CycleSummary(s, i);
    ExecuteCounts(s, i, uid);
    DeactivateSummary(CycleDecision(s, i).1, i.effects);
    hide RunCycle, CycleDecision, DeactivateLimits, TakesSamples;
  }

  /** A busy user becomes quiet, limits go after three quiet cycles, it is busy once more and quiet again. */
  function RelapseRun(cfg: Config, uid: Uid): seq<Event> {
    var gate := cfg.minActiveTime * SECOND;
    [Cycle(HotCycle(cfg, uid, 0)), Cycle(QuietCycle(uid, gate)), Cycle(QuietCycle(uid, gate + 1)),
     Cycle(QuietCycle(uid, gate + 2)), Cycle(HotCycle(cfg, uid, gate + 3)), Cycle(QuietCycle(uid, 2 * gate + 3))]
  }

  lemma RelapseRunIsPossible(cfg: Config, w: bool, uid: Uid)
    requires ValidThresholds(cfg) && cfg.minActiveTime >= 0
    ensures Possible(w, RelapseRun(cfg, uid))
  {
    CollectedOne(Hot(cfg, uid), uid);
    CollectedOne(Quiescent(uid), uid);
    hide Collected;
  }

  lemma Relapse(s: State, uid: Uid)
    requires !s.limitsActive && s.activeUsers == {} && Lookup(s.under, uid, 0) == 0
    requires ValidThresholds(s.cfg) && s.cfg.cpuDuration == 0 && s.cfg.minActiveTime >= 0
    ensures var gate := s.cfg.minActiveTime * SECOND;
            var s2 := RunCycle(RunCycle(s, HotCycle(s.cfg, uid, 0)), QuietCycle(uid, gate));
            var after := RunCycle(RunCycle(s2, QuietCycle(uid, gate + 1)), QuietCycle(uid, gate + 2));
            && !after.limitsActive && after.activeUsers == {} && after.cfg == s.cfg && Lookup(after.under, uid, 0) == 3
  {
    var gate := s.cfg.minActiveTime * SECOND;
    hide RunCycle;
    HotActivates(s, uid, 0);
    var s1 := RunCycle(s, HotCycle(s.cfg, uid, 0));
    QuietMaintains(s1, uid, gate);
    var s2 := RunCycle(s1, QuietCycle(uid, gate));
    QuietMaintains(s2, uid, gate + 1);
    QuietDeactivates(RunCycle(s2, QuietCycle(uid, gate + 1)), uid, gate + 2);
  }

  lemma SixCycles(s: State, es: seq<Event>)
    requires |es| == 6 && forall e | e in es :: e.Cycle?
    ensures At(s, es, 4)
         == RunCycle(RunCycle(RunCycle(RunCycle(s, es[0].input), es[1].input), es[2].input), es[3].input)
    ensures At(s, es, 5) == RunCycle(At(s, es, 4), es[4].input) && At(s, es, 6) == RunCycle(At(s, es, 5), es[5].input)
  {
    hide RunCycle;
    AtStart(s, es);
    AtNext(s, es, 0);
    AtNext(s, es, 1);
    AtNext(s, es, 2);
    AtNext(s, es, 3);
    AtNext(s, es, 4);
    AtNext(s, es, 5);
    hide At;
  }

  /**
    The user is released as idle before the first deactivation, so its counter survives. The
    second period is then ended by the first quiet cycle past the gate.
  */
  lemma OneCyclePeriod(cfg: Config, w: bool, uid: Uid)
    requires ValidThresholds(cfg) && cfg.cpuDuration == 0 && cfg.minActiveTime >= 0
    ensures var s, es := Initial(cfg, w), RelapseRun(cfg, uid);
            && Possible(w, es)
            && !At(s, es, 4).limitsActive && At(s, es, 5).limitsActive && !At(s, es, 6).limitsActive
  {
    hide Possible, RunCycle, At, HotCycle, QuietCycle, RelapseRun;
    RelapseRunIsPossible(cfg, w, uid);
    RelapseRunHas(cfg, uid);
    SixCycles(Initial(cfg, w), RelapseRun(cfg, uid));
    Relapse(Initial(cfg, w), uid);
    SecondPeriod(At(Initial(cfg, w), RelapseRun(cfg, uid), 4), uid);
  }

  lemma RelapseRunHas(cfg: Config, uid: Uid)
    ensures var es, gate := RelapseRun(cfg, uid), cfg.minActiveTime * SECOND;
            && |es| == 6 && es[0] == Cycle(HotCycle(cfg, uid, 0)) && es[1] == Cycle(QuietCycle(uid, gate))
            && es[2] == Cycle(QuietCycle(uid, gate + 1)) && es[3] == Cycle(QuietCycle(uid, gate + 2))
            && es[4] == Cycle(HotCycle(cfg, uid, gate + 3)) && es[5] == Cycle(QuietCycle(uid, 2 * gate + 3))
  {
  }

  lemma SecondPeriod(s: State, uid: Uid)
    requires !s.limitsActive && s.activeUsers == {} && Lookup(s.under, uid, 0) == 3
    requires ValidThresholds(s.cfg) && s.cfg.cpuDuration == 0
    ensures var gate := s.cfg.minActiveTime * SECOND;
            var active := RunCycle(s, HotCycle(s.cfg, uid, gate + 3));
            active.limitsActive && !RunCycle(active, QuietCycle(uid, 2 * gate + 3)).limitsActive
  {
    var gate := s.cfg.minActiveTime * SECOND;
    hide RunCycle;
    HotActivates(s, uid, gate + 3);
    QuietDeactivates(RunCycle(s, HotCycle(s.cfg, uid, gate + 3)), uid, 2 * gate + 3);
  }
}
