/** Runs of the manager that go wrong, and what follows from them. */
module ControlFailures {
  import opened Common
  import opened ControlModel
  import opened ControlInvariants
  import opened ControlTiming

  // ------------------------------------------------------- runs that go wrong

  /** A reading in which one eligible user is busy, and one in which nobody is left. */
  function OneBusy(uid: Uid): Metrics { Metrics(4, 50.0, 0, 0, 1024.0, false, map[uid := 50.0], {uid}) }

  function Nobody(): Metrics { Metrics(4, 0.0, 0, 0, 1024.0, false, map[], {}) }

  function NoFailures(weightFails: set<Uid>): Effects {
    Effects(Some("/sys/fs/cgroup/resman"), true, {}, Monitored({}, {}), {}, weightFails)
  }

  lemma RunStep(s: State, es: seq<Event>, e: Event)
    ensures Run(s, es + [e]) == Step(Run(s, es), e)
  {
    assert (es + [e])[..|es|] == es;
  }

  lemma FirstEnrolment(s: State, uid: Uid, now: int)
    requires s.activeUsers == {}
    ensures var after := Enrol(s, false, OneBusy(uid), NoFailures({}), now).1;
            after == s.(activeUsers := {uid}, limitsActive := true, appliedAt := Some(now),
                        placing := s.placing + multiset{uid}, monitors := after.monitors)
  {
    hide Watch;
    assert OneBusy(uid).eligible - s.activeUsers - NoFailures({}).createFails == {uid};
    assert multiset({uid}) == multiset{uid};
  }

  lemma FirstActivation(s: State, uid: Uid, now: int)
    requires s.activeUsers == {}
    ensures var after := ActivateLimits(s, OneBusy(uid), NoFailures({}), now).1;
            && after == s.(activeUsers := {uid}, limitsActive := true, appliedAt := Some(now),
                           placing := s.placing + multiset{uid}, sharedPath := after.sharedPath, monitors := after.monitors)
  {
    hide Enrol;
    assert s.activeUsers * OneBusy(uid).userCPU.Keys == {};
    FirstEnrolment(OpenShared(s, NoFailures({})).1, uid, now);
  }

  lemma EmptyActivation(s: State, now: int)
    ensures var after := ActivateLimits(s, Nobody(), NoFailures({}), now).1;
            after.activeUsers == {} && after.boostedAt == s.boostedAt
  {
    ActivateOnlyAdds(s, Nobody(), NoFailures({}), now);
    hide ActivateLimits;
    assert Nobody().userCPU.Keys == {};
  }

  /** The user is limited and boosted, and gone from the reading of a second forced activation. */
  function LeakingRun(uid: Uid): seq<Event> {
    [Event.ForceActivate(Some(OneBusy(uid)), NoFailures({}), 0), PsiEvent(uid, 1, true),
     Event.ForceActivate(Some(Nobody()), NoFailures({}), 2)]
  }

  lemma LeakingRunIs(cfg: Config, uid: Uid)
    requires uid.id > 0
    ensures var s := Run(Initial(cfg, true), LeakingRun(uid));
            s.activeUsers == {} && s.boostedAt == map[uid := 1] && s.cfg == cfg && s.hasWatcher
  {
    hide Run, ActivateLimits;
    var s, fx := Initial(cfg, true), NoFailures({});
    var e1, e2 := Event.ForceActivate(Some(OneBusy(uid)), fx, 0), PsiEvent(uid, 1, true);
    var e3 := Event.ForceActivate(Some(Nobody()), fx, 2);
    RunThree(s, e1, e2, e3);
    FirstActivation(s, uid, 0);
    var s2 := Step(Step(s, e1), e2);
    assert s2.boostedAt == map[uid := 1];
    EmptyActivation(s2, 2);
    ActivateOnlyAdds(s2, Nobody(), fx, 2);
  }

  lemma LeakingRunIsPossible(uid: Uid)
    ensures Possible(true, LeakingRun(uid))
  {
    CollectedOne(OneBusy(uid), uid);
    CollectedNobody(Nobody());
    hide Collected;
  }

  /** A second forced activation, after the user has logged out, leaves its boost behind. */
  lemma ForcedLeak(cfg: Config, uid: Uid)
    requires uid.id > 0
    ensures Possible(true, LeakingRun(uid)) && !NoLeak(Run(Initial(cfg, true), LeakingRun(uid)))
  {
    LeakingRunIsPossible(uid);
    hide Possible, LeakingRun, Run;
    LeakingRunIs(cfg, uid);
    assert uid in Run(Initial(cfg, true), LeakingRun(uid)).boostedAt;
  }

  /** The reading of a cycle that wants to activate limits for the CPU. */
  function Hot(cfg: Config, uid: Uid): Metrics {
    var cpu := cfg.cpuThreshold as real;
    Metrics(cfg.minSystemCores + 1, cpu, 0, 0, 1024.0, false, map[uid := cpu], {uid})
  }

  /** Such a cycle, in which no shared cgroup is to be had. */
  function FailingActivation(cfg: Config, uid: Uid, now: int): CycleInput {
    var m := Hot(cfg, uid);
    CycleInput(false, Some(m), m.eligible, m.userCPU, NoFailures({}).(sharedBase := None), Clock(now, now, now))
  }

  /** A boost that leaked survives its expiry in a cycle whose execution fails. */
  lemma SurvivingBoost(cfg: Config, uid: Uid)
    requires uid.id > 0 && ValidThresholds(cfg) && cfg.cpuDuration == 0 && cfg.psiBoostDuration >= 0
    ensures var now := 2 + cfg.psiBoostDuration * SECOND;
            var es := LeakingRun(uid) + [Event.ForceDeactivate(NoFailures({}))]
                      + [Cycle(FailingActivation(cfg, uid, now))];
            Possible(true, es) && !Unexpired(Run(Initial(cfg, true), es), now)
  {
    var now := 2 + cfg.psiBoostDuration * SECOND;
    var off, i := Event.ForceDeactivate(NoFailures({})), FailingActivation(cfg, uid, now);
    SurvivorsAreRead(cfg, uid);
    hide Run, DeactivateLimits, RunCycle, LeakingRun, Possible;
    LeakingRunIs(cfg, uid);
    var s3 := Run(Initial(cfg, true), LeakingRun(uid));
    RunStep(Initial(cfg, true), LeakingRun(uid), off);
    RunStep(Initial(cfg, true), LeakingRun(uid) + [off], Cycle(i));
    DeactivateSummary(s3, NoFailures({}));
    var s4 := Step(s3, off);
    assert s4.boostedAt == s3.boostedAt - {};
    FailureKeepsBoosts(s4, i, uid);
    assert uid in RunCycle(s4, i).boostedAt && RunCycle(s4, i).boostedAt[uid] == 1;
  }

  lemma SurvivorsAreRead(cfg: Config, uid: Uid)
    requires ValidThresholds(cfg) && cfg.psiBoostDuration >= 0
    ensures var now := 2 + cfg.psiBoostDuration * SECOND;
            Possible(true, LeakingRun(uid) + [Event.ForceDeactivate(NoFailures({}))]
                           + [Cycle(FailingActivation(cfg, uid, now))])
  {
    CollectedOne(OneBusy(uid), uid);
    CollectedNobody(Nobody());
    CollectedOne(Hot(cfg, uid), uid);
    hide Collected;
  }

  lemma FailureKeepsBoosts(s: State, i: CycleInput, uid: Uid)
    requires !s.limitsActive && s.sharedPath == "" && s.cfg.cpuDuration <= 0
    requires i == FailingActivation(s.cfg, uid, i.clock.revert)
    ensures RunCycle(s, i).boostedAt == s.boostedAt && RunCycle(s, i).cfg == s.cfg
  {
    var m := i.reading.value;
    assert CPUExceeded(s.cfg, m) && EnoughCores(s.cfg, m);
    assert LoadAllowed(s.cfg, m);
    HotDecision(s, i);
    DecideKeepsTables(s, m, i.limited, i.ema, i.clock.decide);
    hide Decide;
    assert !CycleExecution(s, i).0;
    ActivateOnlyAdds(CycleDecision(s, i).1, m, i.effects, i.clock.apply);
    hide ActivateLimits;
  }

  lemma HotDecision(s: State, i: CycleInput)
    requires Evaluated(i) && !s.limitsActive && s.cfg.cpuDuration <= 0 && CPUExceeded(s.cfg, i.reading.value)
    requires EnoughCores(s.cfg, i.reading.value) && LoadAllowed(s.cfg, i.reading.value)
    ensures CycleDecision(s, i).0 == Activate
  {
    hide ObserveIO, RAMExceeded;
  }

  lemma RunThree(s: State, e1: Event, e2: Event, e3: Event)
    ensures Run(s, [e1, e2, e3]) == Step(Step(Step(s, e1), e2), e3)
  {
    assert Run(s, []) == s;
    hide Run, Step;
    RunStep(s, [], e1);
    RunStep(s, [e1], e2);
    RunStep(s, [e1, e2], e3);
    assert [] + [e1] == [e1] && [e1] + [e2] == [e1, e2] && [e1, e2] + [e3] == [e1, e2, e3];
  }

  /** A cycle with a busy user, in whose last stage no weight of the user can be written. */
  function FailingRevert(cfg: Config, uid: Uid): CycleInput {
    CycleInput(false, Some(OneBusy(uid)), {uid}, OneBusy(uid).userCPU, NoFailures({uid}),
               Clock(0, 0, cfg.psiBoostDuration * SECOND))
  }

  /** The user is limited, placed and boosted. */
  function BoostedRun(uid: Uid): seq<Event> {
    [Event.ForceActivate(Some(OneBusy(uid)), NoFailures({}), 0), Finish(Place(uid), true), PsiEvent(uid, 0, true)]
  }

  lemma LosingRunIsPossible(cfg: Config, uid: Uid)
    requires cfg.psiBoostDuration >= 0
    ensures Possible(true, BoostedRun(uid) + [Cycle(FailingRevert(cfg, uid))])
  {
    CollectedOne(OneBusy(uid), uid);
    hide Collected;
  }

  lemma PlacementFinishes(s: State, uid: Uid)
    requires s.placing == multiset{uid}
    ensures FinishTask(s, Place(uid), true) == s.(placing := multiset{}, weights := ResetWeights(s.weights, {uid}))
  {
  }

  lemma BoostIsRecorded(s: State, uid: Uid)
    requires s.activeUsers == {uid} && uid.id > 0 && s.hasWatcher
    ensures var after := BoostUser(s, uid, 0, true);
            after == s.(weights := s.weights[uid := Clamp(s.cfg.psiBoostWeight)], boostedAt := s.boostedAt[uid := 0])
  {
    hide Clamp;
  }

  lemma BoostedRunIs(cfg: Config, uid: Uid)
    requires uid.id > 0
    ensures var s := Run(Initial(cfg, true), BoostedRun(uid));
            && s.limitsActive && s.activeUsers == {uid} && s.placing == multiset{} && s.hasWatcher && s.cfg == cfg
            && s.appliedAt == Some(0) && s.boostedAt == map[uid := 0] && Weight(s, uid) == Clamp(cfg.psiBoostWeight)
  {
    hide Run, ActivateLimits, Clamp, FinishTask, BoostUser, ResetWeights;
    var s := Initial(cfg, true);
    RunThree(s, BoostedRun(uid)[0], BoostedRun(uid)[1], BoostedRun(uid)[2]);
    FirstActivation(s, uid, 0);
    var s1 := Step(s, BoostedRun(uid)[0]);
    PlacementFinishes(s1, uid);
    BoostIsRecorded(Step(s1, BoostedRun(uid)[1]), uid);
  }

  /** One failed weight write while reverting leaves a limited user boosted and forgotten. */
  lemma LostBoost(cfg: Config, uid: Uid)
    requires uid.id > 0 && cfg.minActiveTime > 0 && cfg.psiBoostDuration >= 0
    requires Clamp(cfg.psiBoostWeight) != NORMAL_WEIGHT
    ensures var es := BoostedRun(uid) + [Cycle(FailingRevert(cfg, uid))];
            Possible(true, es) && Lost(Run(Initial(cfg, true), es), uid)
  {
    LosingRunIsPossible(cfg, uid);
    BoostedRunIs(cfg, uid);
    RunStep(Initial(cfg, true), BoostedRun(uid), Cycle(FailingRevert(cfg, uid)));
    hide Possible, Run, RunCycle, Clamp, BoostedRun, Lost;
    BoostIsLost(Run(Initial(cfg, true), BoostedRun(uid)), FailingRevert(cfg, uid), uid);
  }

  lemma BoostIsLost(s: State, i: CycleInput, uid: Uid)
    requires s.limitsActive && s.activeUsers == {uid} && s.placing == multiset{} && s.hasWatcher && s.cfg.minActiveTime > 0
    requires s.appliedAt == Some(0) && i.clock.decide == 0 && Evaluated(i) && i.reading == Some(OneBusy(uid))
    requires i.effects == NoFailures({uid}) && uid in s.boostedAt && Weight(s, uid) != NORMAL_WEIGHT
    requires i.clock.revert - s.boostedAt[uid] >= s.cfg.psiBoostDuration * SECOND
    ensures Lost(RunCycle(s, i), uid)
  {
    var m := OneBusy(uid);
    YoungLimitsWait(s, i);
    var decided := CycleDecision(s, i).1;
    hide Decide;
    assert CycleExecution(s, i) == (true, ReleaseIdle(decided, m, i.effects, i.clock.apply));
    BusyUserStays(decided, uid, i.effects, i.clock.apply);
    hide ReleaseIdle, CycleDecision, CycleExecution;
    assert uid in RunCycle(s, i).activeUsers && uid !in RunCycle(s, i).boostedAt;
  }

  /** Before MIN_ACTIVE_TIME has passed a cycle maintains. */
  lemma YoungLimitsWait(s: State, i: CycleInput)
    requires Evaluated(i) && s.limitsActive && Waiting(s, i.clock.decide)
    ensures CycleDecision(s, i).0 == Maintain
    ensures CycleDecision(s, i).1 == s.(ioTracker := CycleDecision(s, i).1.ioTracker)
  {
    hide ObserveIO, AllBelow, CountSamples;
  }

  lemma BusyUserStays(s: State, uid: Uid, effects: Effects, now: int)
    requires s.activeUsers == {uid} && s.limitsActive
    ensures var after := ReleaseIdle(s, OneBusy(uid), effects, now);
            && after.activeUsers == {uid} && after.boostedAt == s.boostedAt && after.placing == s.placing
            && after.weights == s.weights && after.cfg == s.cfg
  {
    assert IdleUsers(s, OneBusy(uid)) == {};
    assert BusyUsers(OneBusy(uid)) - {uid} - effects.createFails == {};
    hide IdleUsers, BusyUsers, AddUsers, ReleaseUsers;
    NobodyMoves(s, effects);
  }

  lemma NobodyMoves(s: State, effects: Effects)
    ensures ReleaseUsers(s, {}) == s && AddUsers(s, {}, effects) == s
  {
  }

  // ------------------------------------------------------- a lost boost stays

  /** A limited user with a weight that nothing pending or recorded will set back. */
  ghost predicate Lost(s: State, uid: Uid) {
    uid in s.activeUsers && Weight(s, uid) != NORMAL_WEIGHT && uid !in s.boostedAt && uid !in s.placing
  }

  /** Neither a new boost of the user, nor a reading that lists eligible users it did not see. */
  predicate NoRepair(e: Event, uid: Uid) {
    && !(e.PsiEvent? && e.uid == uid)
    && (e.ForceActivate? && e.reading.Some? ==> e.reading.value.eligible <= e.reading.value.userCPU.Keys)
  }

  lemma LostThroughRelease(s: State, m: Metrics, effects: Effects, now: int, uid: Uid)
    requires Lost(s, uid) && uid in ReleaseIdle(s, m, effects, now).activeUsers
    ensures Lost(ReleaseIdle(s, m, effects, now), uid)
  {
    hide Watch, Unwatch, BusyUsers;
  }

  lemma EnrolPlacesOthers(s: State, dropped: bool, m: Metrics, effects: Effects, now: int, uid: Uid)
    requires uid in s.activeUsers
    ensures Enrol(s, dropped, m, effects, now).1.placing[uid] == s.placing[uid]
  {
    hide Watch;
  }

  lemma LostThroughActivation(s: State, m: Metrics, effects: Effects, now: int, uid: Uid)
    requires Lost(s, uid) && m.eligible <= m.userCPU.Keys && uid in ActivateLimits(s, m, effects, now).1.activeUsers
    ensures Lost(ActivateLimits(s, m, effects, now).1, uid)
  {
    hide Enrol;
    ActivateOnlyAdds(s, m, effects, now);
    var kept := s.(activeUsers := s.activeUsers * m.userCPU.Keys);
    assert uid in kept.activeUsers;
    var shared := OpenShared(kept, effects).1;
    EnrolPlacesOthers(shared, kept.activeUsers != s.activeUsers, m, effects, now, uid);
    hide OnlyAdds;
  }

  lemma LostThroughCycle(s: State, i: CycleInput, uid: Uid)
    requires Consistent(s) && Lost(s, uid) && Evaluated(i) && uid in RunCycle(s, i).activeUsers
    ensures Lost(RunCycle(s, i), uid)
  {
    DecideKeepsTables(s, i.reading.value, i.limited, i.ema, i.clock.decide);
    var (d, decided) := CycleDecision(s, i);
    hide Decide, ReleaseIdle, ActivateLimits, DeactivateLimits;
    DeactivateSummary(decided, i.effects);
    assert d == Maintain;
    LostThroughRelease(decided, i.reading.value, i.effects, i.clock.apply, uid);
  }

  lemma LostThroughFinish(s: State, t: Task, weightOk: bool, uid: Uid)
    requires Lost(s, uid)
    ensures Lost(FinishTask(s, t, weightOk), uid)
  {
  }

  lemma LostThroughBoost(s: State, other: Uid, now: int, weightOk: bool, uid: Uid)
    requires Lost(s, uid) && other != uid
    ensures Lost(BoostUser(s, other, now, weightOk), uid)
  {
  }

  lemma LostThroughStep(s: State, e: Event, uid: Uid)
    requires Consistent(s) && Lost(s, uid) && NoRepair(e, uid) && uid in Step(s, e).activeUsers
    ensures Lost(Step(s, e), uid)
  {
    hide RunCycle, ActivateLimits, DeactivateLimits, FinishTask, BoostUser, Consistent;
    match e {
      case Finish(t, ok) => LostThroughFinish(s, t, ok, uid);
      case PsiEvent(other, now, ok) => LostThroughBoost(s, other, now, ok, uid);
      case Cycle(i) =>
        if Evaluated(i) {
          LostThroughCycle(s, i, uid);
        } else {
          IdleCycle(s, i);
        }
      case ForceActivate(r, fx, now) =>
        if r.Some? {
          LostThroughActivation(s, r.value, fx, now, uid);
        }
      case ForceDeactivate(fx) =>
        DeactivateSummary(s, fx);
      case _ =>
    }
  }

  /** A lost boost stays lost for as long as the user is limited and has no new pressure event. */
  lemma {:induction false} LostBoostStays(s: State, es: seq<Event>, uid: Uid)
    requires Consistent(s) && Lost(s, uid)
    requires forall n: nat | n < |es| :: NoRepair(es[n], uid) && uid in At(s, es, n + 1).activeUsers
    ensures Consistent(Run(s, es)) && Lost(Run(s, es), uid)
  {
    if es != [] {
      var n := |es| - 1;
      forall k: nat | k < n ensures NoRepair(es[..n][k], uid) && uid in At(s, es[..n], k + 1).activeUsers {
        assert es[..n][..k + 1] == es[..k + 1] && NoRepair(es[k], uid);
      }
      LostBoostStays(s, es[..n], uid);
      assert es[..n + 1] == es && NoRepair(es[n], uid) && uid in At(s, es, n + 1).activeUsers;
      hide Step, Lost, NoRepair, Consistent;
      StepKeepsConsistent(Run(s, es[..n]), es[n]);
      LostThroughStep(Run(s, es[..n]), es[n], uid);
    }
  }
}
