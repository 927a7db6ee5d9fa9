/** What every step of the manager keeps, and so what holds after every run. */
module ControlInvariants {
  import opened Common
  import opened ControlModel

  // ------------------------------------------------------- limits and their users

  /** Inactive limits limit nobody; active limits have a shared cgroup and a start time. */
  ghost predicate Consistent(s: State) {
    && (!s.limitsActive ==> s.activeUsers == {})
    && (s.limitsActive ==> s.sharedPath != "")
    && (s.limitsActive <==> s.appliedAt.Some?)
    && (!s.hasWatcher ==> s.monitors == Monitored({}, {}))
    && (forall uid | uid in s.under :: s.under[uid] >= 0)
  }

  lemma DecideActiveKeeps(s: State, m: Metrics, limited: set<Uid>, ema: map<Uid, real>, now: int)
    ensures var (d, after) := DecideActive(s, m, limited, ema, now);
            && d != Activate
            && after == s.(cpuTracker := after.cpuTracker, ioTracker := after.ioTracker, under := after.under)
  {
    hide CountSamples, Stable, AllBelow, Waiting;
  }

  lemma DecideInactiveKeeps(s: State, m: Metrics, ioExceeded: bool, now: int)
    ensures var (d, after) := DecideInactive(s, m, ioExceeded, now);
            && d != Deactivate
            && after == s.(cpuTracker := after.cpuTracker, ioTracker := after.ioTracker, under := after.under)
  {
    hide Observe, CPUExceeded, RAMExceeded, EnoughCores, LoadAllowed;
  }

  lemma DecideKeepsTables(s: State, m: Metrics, limited: set<Uid>, ema: map<Uid, real>, now: int)
    ensures var after := Decide(s, m, limited, ema, now).1;
            after == s.(cpuTracker := after.cpuTracker, ioTracker := after.ioTracker, under := after.under)
    ensures Decide(s, m, limited, ema, now).0 == Deactivate ==> s.limitsActive
    ensures Decide(s, m, limited, ema, now).0 == Activate ==> !s.limitsActive
  {
    hide ObserveIO, DecideActive, DecideInactive;
    var (io, ioExceeded) := ObserveIO(s, m, now);
    DecideActiveKeeps(s.(ioTracker := io), m, limited, ema, now);
    DecideInactiveKeeps(s.(ioTracker := io), m, ioExceeded, now);
  }

  /** Reverting boosts, the last stage of a cycle, touches weights and boosts only. */
  lemma CycleSummary(s: State, i: CycleInput)
    requires Evaluated(i)
    ensures var (d, decided) := CycleDecision(s, i);
            var executed := Execute(decided, d, i.reading.value, i.effects, i.clock.apply).1;
            var after := RunCycle(s, i);
            && after == executed.(weights := after.weights, boostedAt := after.boostedAt)
            && after.boostedAt.Keys <= executed.boostedAt.Keys
            && decided == s.(cpuTracker := decided.cpuTracker, ioTracker := decided.ioTracker, under := decided.under)
            && (d == Deactivate ==> s.limitsActive) && (d == Activate ==> !s.limitsActive)
  {
    hide Decide, Execute;
    DecideKeepsTables(s, i.reading.value, i.limited, i.ema, i.clock.decide);
  }

  /** What adding users can change. */
  ghost predicate OnlyAdds(s: State, after: State, m: Metrics, now: int) {
    && after == s.(activeUsers := after.activeUsers, monitors := after.monitors, placing := after.placing,
                   limitsActive := after.limitsActive, appliedAt := after.appliedAt, sharedPath := after.sharedPath)
    && after.activeUsers <= s.activeUsers + m.eligible
    && s.monitors.cpu <= after.monitors.cpu && s.monitors.io <= after.monitors.io
    && after.appliedAt in {s.appliedAt, Some(now)}
  }

  lemma EnrolOnlyAdds(s: State, dropped: bool, m: Metrics, effects: Effects, now: int)
    ensures OnlyAdds(s, Enrol(s, dropped, m, effects, now).1, m, now)
  {
  }

  lemma ActivateOnlyAdds(s: State, m: Metrics, effects: Effects, now: int)
    ensures var kept := s.(activeUsers := s.activeUsers * m.userCPU.Keys);
            OnlyAdds(kept, ActivateLimits(s, m, effects, now).1, m, now)
  {
    hide Enrol, OnlyAdds;
    var kept := s.(activeUsers := s.activeUsers * m.userCPU.Keys);
    var (ok, shared) := OpenShared(kept, effects);
    EnrolOnlyAdds(shared, kept.activeUsers != s.activeUsers, m, effects, now);
    OnlyAddsToo(kept, shared.sharedPath, shared, m, now);
    OnlyAddsToo(kept, shared.sharedPath, Enrol(shared, kept.activeUsers != s.activeUsers, m, effects, now).1, m, now);
  }

  lemma OnlyAddsToo(s: State, path: string, after: State, m: Metrics, now: int)
    ensures OnlyAdds(s.(sharedPath := path), s.(sharedPath := path), m, now)
    ensures OnlyAdds(s.(sharedPath := path), after, m, now) ==> OnlyAdds(s, after, m, now)
  {
  }

  /** The fields that matter for timing, after each kind of action. */
  lemma ExecuteSummary(s: State, d: Decision, m: Metrics, effects: Effects, now: int)
    ensures var after := Execute(s, d, m, effects, now).1;
            && after.cfg == s.cfg && after.hasWatcher == s.hasWatcher
            && after.cpuTracker == s.cpuTracker && after.ioTracker == s.ioTracker
            && after.under == (if d == Deactivate then s.under - s.activeUsers else s.under)
            && (if d == Deactivate then after.appliedAt == None else after.appliedAt in {s.appliedAt, Some(now)})
            && (d == Deactivate ==> !after.limitsActive)
            && (d == Maintain ==> after.limitsActive == s.limitsActive)
            && after.activeUsers <= s.activeUsers + m.eligible
  {
    hide ActivateLimits, ReleaseIdle, DeactivateLimits;
    match d
    case Activate => ActivateOnlyAdds(s, m, effects, now);
    case Deactivate => DeactivateSummary(s, effects);
    case Maintain => ReleaseSummary(s, m, effects, now);
  }

  lemma ReleaseSummary(s: State, m: Metrics, effects: Effects, now: int)
    ensures var after := ReleaseIdle(s, m, effects, now);
            && after == s.(activeUsers := after.activeUsers, boostedAt := after.boostedAt, monitors := after.monitors,
                           placing := after.placing, releasing := after.releasing, appliedAt := after.appliedAt)
            && after.appliedAt in {s.appliedAt, Some(now)} && after.activeUsers <= s.activeUsers + m.eligible
            && (s.appliedAt.Some? || !s.limitsActive ==> (after.appliedAt.Some? <==> s.appliedAt.Some?))
  {
    hide Watch, Unwatch, IdleUsers;
  }

  lemma DeactivateSummary(s: State, effects: Effects)
    ensures var after := DeactivateLimits(s, effects).1;
            && after.cfg == s.cfg && after.hasWatcher == s.hasWatcher
            && after.cpuTracker == s.cpuTracker && after.ioTracker == s.ioTracker
            && after.under == s.under - s.activeUsers && after.boostedAt == s.boostedAt - s.activeUsers
            && after.appliedAt == None && !after.limitsActive && after.activeUsers == {} && after.sharedPath == ""
            && after.monitors == Unwatch(s.hasWatcher, s.monitors, s.activeUsers)
  {
    hide Unwatch, ResetWeights;
  }

  lemma EnrolKeepsConsistent(s: State, dropped: bool, m: Metrics, effects: Effects, now: int)
    requires Consistent(s) && s.sharedPath != ""
    ensures Consistent(Enrol(s, dropped, m, effects, now).1)
  {
  }

  lemma OpenKeepsConsistent(s: State, effects: Effects)
    requires Consistent(s)
    ensures var (ready, shared) := OpenShared(s, effects); Consistent(shared) && (ready ==> shared.sharedPath != "")
  {
  }

  lemma ActivateKeepsConsistent(s: State, m: Metrics, effects: Effects, now: int)
    requires Consistent(s)
    ensures Consistent(ActivateLimits(s, m, effects, now).1)
  {
    var kept := s.(activeUsers := s.activeUsers * m.userCPU.Keys);
    assert Consistent(kept);
    hide OpenShared, Enrol, Consistent;
    OpenKeepsConsistent(kept, effects);
    var (ready, shared) := OpenShared(kept, effects);
    if ready {
      EnrolKeepsConsistent(shared, kept.activeUsers != s.activeUsers, m, effects, now);
    }
  }

  lemma DecideActiveCounts(s: State, m: Metrics, limited: set<Uid>, ema: map<Uid, real>, now: int)
    ensures var under := DecideActive(s, m, limited, ema, now).1.under;
            under == s.under || under == CountSamples(s.under, limited, ema, s.cfg.cpuRelease as real)
  {
    hide CountSamples, AllBelow, Waiting;
  }

  lemma DecideCountsUp(s: State, i: CycleInput)
    requires Evaluated(i)
    ensures var under := CycleDecision(s, i).1.under;
            under == s.under
            || under == CountSamples(s.under, i.limited, i.ema, s.cfg.cpuRelease as real)
  {
    hide CountSamples, ObserveIO, DecideActive;
    var (io, _) := ObserveIO(s, i.reading.value, i.clock.decide);
    DecideActiveCounts(s.(ioTracker := io), i.reading.value, i.limited, i.ema, i.clock.decide);
  }

  lemma DecideKeepsConsistent(s: State, i: CycleInput)
    requires Evaluated(i) && Consistent(s)
    ensures Consistent(CycleDecision(s, i).1)
  {
    hide CycleDecision;
    CycleSummary(s, i);
    DecideCountsUp(s, i);
  }

  lemma ReleaseKeepsConsistent(s: State, m: Metrics, effects: Effects, now: int)
    requires Consistent(s)
    ensures Consistent(ReleaseIdle(s, m, effects, now))
  {
    ReleaseSummary(s, m, effects, now);
    ReleaseKeepsMonitors(s, m, effects, now);
    hide ReleaseIdle;
  }

  lemma ReleaseKeepsMonitors(s: State, m: Metrics, effects: Effects, now: int)
    ensures !s.hasWatcher ==> ReleaseIdle(s, m, effects, now).monitors == s.monitors
    ensures !s.limitsActive ==> ReleaseIdle(s, m, effects, now) == s
  {
    hide IdleUsers;
  }

  lemma DeactivateKeepsConsistent(s: State, effects: Effects)
    requires Consistent(s)
    ensures Consistent(DeactivateLimits(s, effects).1)
  {
    DeactivateSummary(s, effects);
    hide DeactivateLimits;
  }

  lemma ExecuteKeepsConsistent(s: State, d: Decision, m: Metrics, effects: Effects, now: int)
    requires Consistent(s)
    ensures Consistent(Execute(s, d, m, effects, now).1)
  {
    hide ActivateLimits, ReleaseIdle, DeactivateLimits, Consistent;
    match d
    case Activate => ActivateKeepsConsistent(s, m, effects, now);
    case Deactivate => DeactivateKeepsConsistent(s, effects);
    case Maintain => ReleaseKeepsConsistent(s, m, effects, now);
  }

  lemma CycleKeepsConsistent(s: State, i: CycleInput)
    requires Evaluated(i) && Consistent(s)
    ensures Consistent(RunCycle(s, i))
  {
    hide RunCycle, CycleDecision, Execute;
    CycleSummary(s, i);
    DecideKeepsConsistent(s, i);
    var (d, decided) := CycleDecision(s, i);
    ExecuteKeepsConsistent(decided, d, i.reading.value, i.effects, i.clock.apply);
  }

  lemma FinishKeepsConsistent(s: State, t: Task, ok: bool)
    requires Consistent(s)
    ensures Consistent(FinishTask(s, t, ok))
  {
    hide ResetWeights;
  }

  lemma StepKeepsConsistent(s: State, e: Event)
    requires Consistent(s)
    ensures Consistent(Step(s, e))
  {
    hide RunCycle, ActivateLimits, DeactivateLimits, CycleDecision, FinishTask;
    match e {
      case Cycle(i) =>
        hide Consistent;
        if Evaluated(i) {
          CycleKeepsConsistent(s, i);
        } else {
          IdleCycle(s, i);
        }
      case ForceActivate(r, fx, now) =>
        hide Consistent;
        if r.Some? {
          ActivateKeepsConsistent(s, r.value, fx, now);
        }
      case ForceDeactivate(fx) => DeactivateKeepsConsistent(s, fx);
      case Finish(t, ok) => FinishKeepsConsistent(s, t, ok);
      case _ =>
    }
  }

  lemma IdleCycle(s: State, i: CycleInput)
    requires !Evaluated(i)
    ensures RunCycle(s, i) == s
  {
  }

  /** For every run, whatever the cgroup layer answers. */
  lemma {:induction false} RunIsConsistent(cfg: Config, w: bool, es: seq<Event>)
    ensures Consistent(Run(Initial(cfg, w), es))
  {
    if es != [] {
      RunIsConsistent(cfg, w, es[..|es| - 1]);
      StepKeepsConsistent(Run(Initial(cfg, w), es[..|es| - 1]), es[|es| - 1]);
    }
  }

  // ------------------------------------------------------- no leaked side state

  /** Boosts and per-user monitors belong to limited users. */
  ghost predicate NoLeak(s: State) {
    s.boostedAt.Keys <= s.activeUsers && s.monitors.cpu <= s.activeUsers && s.monitors.io <= s.activeUsers
  }

  ghost predicate HasSideState(s: State, uid: Uid) {
    uid in s.boostedAt || uid in s.monitors.cpu || uid in s.monitors.io
  }

  lemma EnrolKeepsNoLeak(s: State, dropped: bool, m: Metrics, effects: Effects, now: int)
    requires NoLeak(s)
    ensures NoLeak(Enrol(s, dropped, m, effects, now).1)
  {
  }

  lemma ActivateKeepsNoLeak(s: State, m: Metrics, effects: Effects, now: int)
    requires NoLeak(s)
    requires forall uid | uid in s.activeUsers && uid !in m.userCPU :: !HasSideState(s, uid)
    ensures NoLeak(ActivateLimits(s, m, effects, now).1)
  {
    hide Enrol;
    var kept := s.(activeUsers := s.activeUsers * m.userCPU.Keys);
    forall uid | HasSideState(s, uid) ensures uid in kept.activeUsers {}
    var (ok, shared) := OpenShared(kept, effects);
    assert NoLeak(shared) by {
      forall uid | HasSideState(shared, uid) ensures uid in shared.activeUsers {
        assert HasSideState(s, uid);
      }
    }
    EnrolKeepsNoLeak(shared, kept.activeUsers != s.activeUsers, m, effects, now);
  }

  lemma ReleaseKeepsNoLeak(s: State, m: Metrics, effects: Effects, now: int)
    requires NoLeak(s) && (!s.hasWatcher ==> s.monitors == Monitored({}, {}))
    ensures NoLeak(ReleaseIdle(s, m, effects, now))
  {
    var released := ReleaseUsers(s, IdleUsers(s, m));
    assert NoLeak(released);
    hide IdleUsers, BusyUsers, ReleaseUsers;
  }

  lemma DeactivateKeepsNoLeak(s: State, effects: Effects)
    requires NoLeak(s) && (!s.hasWatcher ==> s.monitors == Monitored({}, {}))
    ensures NoLeak(DeactivateLimits(s, effects).1)
  {
    DeactivateSummary(s, effects);
    hide DeactivateLimits;
  }

  lemma ExecuteKeepsNoLeak(s: State, d: Decision, m: Metrics, effects: Effects, now: int)
    requires Consistent(s) && NoLeak(s) && (d == Activate ==> !s.limitsActive)
    ensures NoLeak(Execute(s, d, m, effects, now).1)
  {
    hide ActivateLimits, ReleaseIdle, DeactivateLimits, NoLeak;
    match d
    case Activate =>
      assert s.activeUsers == {};
      ActivateKeepsNoLeak(s, m, effects, now);
    case Deactivate => DeactivateKeepsNoLeak(s, effects);
    case Maintain => ReleaseKeepsNoLeak(s, m, effects, now);
  }

  lemma StepKeepsNoLeak(s: State, e: Event)
    requires Consistent(s) && NoLeak(s) && !e.ForceActivate?
    ensures NoLeak(Step(s, e))
  {
    hide RunCycle, CycleDecision, Execute;
    match e {
      case Cycle(i) =>
        if Evaluated(i) {
          CycleSummary(s, i);
          DecideKeepsConsistent(s, i);
          var (d, decided) := CycleDecision(s, i);
          ExecuteKeepsNoLeak(decided, d, i.reading.value, i.effects, i.clock.apply);
        } else {
          IdleCycle(s, i);
        }
      case _ =>
    }
  }

  /** Without a forced activation no boost and no monitor outlives the user's limits. */
  lemma {:induction false} RunDoesNotLeak(cfg: Config, w: bool, es: seq<Event>)
    requires forall e | e in es :: !e.ForceActivate?
    ensures NoLeak(Run(Initial(cfg, w), es))
  {
    if es != [] {
      var before := es[..|es| - 1];
      RunDoesNotLeak(cfg, w, before);
      RunIsConsistent(cfg, w, before);
      StepKeepsNoLeak(Run(Initial(cfg, w), before), es[|es| - 1]);
    }
  }

  /**
    A forced activation keeps the property exactly when no limited user that is gone
    from the reading has a boost or a monitor: phase 1 forgets such users without
    removing either.
  */
  lemma ForceActivateLeaksIff(s: State, m: Metrics, effects: Effects, now: int)
    requires Consistent(s) && NoLeak(s) && m.eligible <= m.userCPU.Keys
    ensures NoLeak(Step(s, Event.ForceActivate(Some(m), effects, now)))
            <==> forall uid | uid in s.activeUsers && uid !in m.userCPU :: !HasSideState(s, uid)
  {
    hide ActivateLimits;
    var after := ActivateLimits(s, m, effects, now).1;
    ActivateOnlyAdds(s, m, effects, now);
    if forall uid | uid in s.activeUsers && uid !in m.userCPU :: !HasSideState(s, uid) {
      ActivateKeepsNoLeak(s, m, effects, now);
    } else {
      var uid :| uid in s.activeUsers && uid !in m.userCPU && HasSideState(s, uid);
      assert HasSideState(after, uid) && uid !in after.activeUsers;
    }
  }

  // ------------------------------------------------------- boosted weights

  function Weight(s: State, uid: Uid): int { Lookup(s.weights, uid, NORMAL_WEIGHT) }

  /** A limited user with an unusual weight will get its normal weight back. */
  ghost predicate Accounted(s: State, uid: Uid) {
    uid in s.activeUsers && Weight(s, uid) != NORMAL_WEIGHT ==> uid in s.boostedAt || uid in s.placing
  }

  ghost predicate BoostsAccounted(s: State) {
    forall uid :: Accounted(s, uid)
  }

  /** Every ApplyCPUWeight of the step succeeds. */
  predicate WeightsWritten(e: Event) {
    match e
    case Cycle(i) => i.effects.weightFails == {}
    case Finish(_, ok) => ok
    case _ => true
  }

  lemma AddKeepsAccounted(s: State, added: set<Uid>, effects: Effects)
    requires BoostsAccounted(s)
    ensures BoostsAccounted(AddUsers(s, added, effects))
  {
    var after := AddUsers(s, added, effects);
    forall uid ensures Accounted(after, uid) {
      assert Accounted(s, uid);
    }
  }

  /** The accounts look at four fields only. */
  lemma SameAccounts(s: State, t: State)
    requires BoostsAccounted(s) && t.activeUsers <= s.activeUsers
    requires t.weights == s.weights && t.boostedAt == s.boostedAt && t.placing == s.placing
    ensures BoostsAccounted(t)
  {
    forall uid ensures Accounted(t, uid) {
      assert Accounted(s, uid);
    }
  }

  lemma EnrolKeepsAccounted(s: State, dropped: bool, m: Metrics, effects: Effects, now: int)
    requires BoostsAccounted(s)
    ensures BoostsAccounted(Enrol(s, dropped, m, effects, now).1)
  {
    var added := m.eligible - s.activeUsers - effects.createFails;
    AddKeepsAccounted(s, added, effects);
    hide BoostsAccounted, Watch;
    SameAccounts(AddUsers(s, added, effects), Enrol(s, dropped, m, effects, now).1);
  }

  lemma ActivateKeepsAccounted(s: State, m: Metrics, effects: Effects, now: int)
    requires BoostsAccounted(s)
    ensures BoostsAccounted(ActivateLimits(s, m, effects, now).1)
  {
    hide BoostsAccounted, Enrol;
    var kept := s.(activeUsers := s.activeUsers * m.userCPU.Keys);
    var (ready, shared) := OpenShared(kept, effects);
    SameAccounts(s, shared);
    EnrolKeepsAccounted(shared, kept.activeUsers != s.activeUsers, m, effects, now);
  }

  lemma ReleaseKeepsAccounted(s: State, m: Metrics, effects: Effects, now: int)
    requires BoostsAccounted(s)
    ensures BoostsAccounted(ReleaseIdle(s, m, effects, now))
  {
    if s.limitsActive {
      var released := ReleaseUsers(s, IdleUsers(s, m));
      assert forall uid :: Accounted(s, uid) ==> Accounted(released, uid);
      var added := if s.sharedPath == "" then {} else BusyUsers(m) - s.activeUsers - effects.createFails;
      AddKeepsAccounted(released, added, effects);
      var done := AddUsers(released, added, effects);
      assert forall uid :: Accounted(done, uid) ==> Accounted(ReleaseIdle(s, m, effects, now), uid);
    }
  }

  lemma ExecuteKeepsAccounted(s: State, d: Decision, m: Metrics, effects: Effects, now: int)
    requires BoostsAccounted(s)
    ensures BoostsAccounted(Execute(s, d, m, effects, now).1)
  {
    match d
    case Activate => ActivateKeepsAccounted(s, m, effects, now);
    case Maintain => ReleaseKeepsAccounted(s, m, effects, now);
    case Deactivate =>
  }

  /**
    Reverting expired boosts forgets an entry even when its write failed, so it keeps
    the property exactly when each failed write belonged to a user whose weight is
    normal already, who is not limited, or whose placement is still to come.
  */
  lemma RevertAccountsIff(s: State, fails: set<Uid>, now: int)
    requires BoostsAccounted(s)
    ensures BoostsAccounted(RevertBoosts(s, fails, now))
            <==> forall uid | uid in ExpiredBoosts(s, now) && uid in fails && uid in s.activeUsers ::
                   Weight(s, uid) == NORMAL_WEIGHT || uid in s.placing
  {
    var after := RevertBoosts(s, fails, now);
    var expired := ExpiredBoosts(s, now);
    forall uid ensures Weight(after, uid) == if uid in expired - fails then NORMAL_WEIGHT else Weight(s, uid) {}
    forall uid | uid !in expired * fails ensures Accounted(after, uid) {
      assert Accounted(s, uid);
    }
    if BoostsAccounted(after) {
      forall uid | uid in expired && uid in fails && uid in s.activeUsers
        ensures Weight(s, uid) == NORMAL_WEIGHT || uid in s.placing
      {
        assert Accounted(after, uid);
      }
    }
  }

  lemma CycleKeepsAccounted(s: State, i: CycleInput)
    requires BoostsAccounted(s) && WeightsWritten(Cycle(i)) && Evaluated(i)
    ensures BoostsAccounted(RunCycle(s, i))
  {
    hide Decide, Execute, RevertBoosts;
    DecideKeepsTables(s, i.reading.value, i.limited, i.ema, i.clock.decide);
    var (d, decided) := CycleDecision(s, i);
    assert forall uid :: Accounted(s, uid) ==> Accounted(decided, uid);
    ExecuteKeepsAccounted(decided, d, i.reading.value, i.effects, i.clock.apply);
    hide BoostsAccounted;
    RevertAccountsIff(CycleExecution(s, i).1, {}, i.clock.revert);
  }

  lemma DeactivateKeepsAccounted(s: State, effects: Effects)
    requires BoostsAccounted(s)
    ensures BoostsAccounted(DeactivateLimits(s, effects).1)
  {
    DeactivateSummary(s, effects);
  }

  lemma StepKeepsAccounted(s: State, e: Event)
    requires BoostsAccounted(s) && WeightsWritten(e)
    ensures BoostsAccounted(Step(s, e))
  {
    hide RunCycle, ActivateLimits, DeactivateLimits;
    match e {
      case Cycle(i) =>
        if Evaluated(i) {
          CycleKeepsAccounted(s, i);
        } else {
          IdleCycle(s, i);
        }
      case ForceActivate(r, fx, now) =>
        if r.Some? {
          ActivateKeepsAccounted(s, r.value, fx, now);
        }
      case ForceDeactivate(fx) =>
        DeactivateKeepsAccounted(s, fx);
        var after := DeactivateLimits(s, fx).1;
        assert forall uid :: Accounted(after, uid) ==> Accounted(Step(s, e), uid);
      case PsiEvent(uid, now, ok) => BoostKeepsAccounted(s, uid, now, ok);
      case Finish(t, ok) => FinishKeepsAccounted(s, t);
      case Refresh =>
      case UpdateConfig(cfg) => assert forall uid :: Accounted(s, uid) ==> Accounted(s.(cfg := cfg), uid);
    }
  }

  lemma BoostKeepsAccounted(s: State, uid: Uid, now: int, ok: bool)
    requires BoostsAccounted(s)
    ensures BoostsAccounted(BoostUser(s, uid, now, ok))
  {
    forall u ensures Accounted(BoostUser(s, uid, now, ok), u) {
      assert Accounted(s, u);
    }
  }

  lemma FinishKeepsAccounted(s: State, t: Task)
    requires BoostsAccounted(s)
    ensures BoostsAccounted(FinishTask(s, t, true))
  {
    forall u ensures Accounted(FinishTask(s, t, true), u) {
      assert Accounted(s, u);
    }
  }

  /** Over any interleaving of cycles, pressure events, forced operations and goroutines. */
  lemma {:induction false} RunAccountsForBoosts(cfg: Config, w: bool, es: seq<Event>)
    requires forall e | e in es :: WeightsWritten(e)
    ensures BoostsAccounted(Run(Initial(cfg, w), es))
  {
    if es != [] {
      RunAccountsForBoosts(cfg, w, es[..|es| - 1]);
      StepKeepsAccounted(Run(Initial(cfg, w), es[..|es| - 1]), es[|es| - 1]);
    }
  }

  lemma WatcherStays(s: State, i: CycleInput)
    requires Evaluated(i)
    ensures CycleExecution(s, i).1.hasWatcher == s.hasWatcher && CycleExecution(s, i).1.cfg == s.cfg
  {
    hide Decide, Execute;
    CycleSummary(s, i);
    var (d, decided) := CycleDecision(s, i);
    ExecuteSummary(decided, d, i.reading.value, i.effects, i.clock.apply);
  }

  /** Every remaining boost is younger than PSI_BOOST_DURATION. */
  ghost predicate Unexpired(s: State, now: int) {
    forall uid | uid in s.boostedAt :: now - s.boostedAt[uid] < s.cfg.psiBoostDuration * SECOND
  }

  /** What the cgroup layer must do for the decision of the cycle to be carried out without an error. */
  predicate Succeeds(s: State, i: CycleInput)
    requires Evaluated(i)
  {
    match CycleDecision(s, i).0
    case Maintain => true
    case Activate =>
      && (s.sharedPath != "" || (i.effects.sharedBase.Some? && i.effects.quotaOk))
      && i.reading.value.eligible * i.effects.createFails == {}
    case Deactivate => s.activeUsers * i.effects.restoreFails == {}
  }

  lemma ActivationSucceeds(s: State, m: Metrics, effects: Effects, now: int)
    requires s.activeUsers == {}
    ensures ActivateLimits(s, m, effects, now).0
       <==> && (s.sharedPath != "" || (effects.sharedBase.Some? && effects.quotaOk))
            && m.eligible * effects.createFails == {}
  {
    hide AddUsers;
    assert {} * m.userCPU.Keys == {};
    assert m.eligible - {} == m.eligible;
  }

  lemma SuccessIs(s: State, i: CycleInput)
    requires Consistent(s) && Evaluated(i)
    ensures CycleExecution(s, i).0 <==> Succeeds(s, i)
  {
    DecideKeepsTables(s, i.reading.value, i.limited, i.ema, i.clock.decide);
    var (d, decided) := CycleDecision(s, i);
    hide Decide, ReleaseIdle, ActivateLimits, Drain, Unwatch;
    if d == Activate {
      ActivationSucceeds(decided, i.reading.value, i.effects, i.clock.apply);
    } else if d == Deactivate {
      assert DeactivateLimits(decided, i.effects).0 <==> s.activeUsers * i.effects.restoreFails == {};
    }
  }

  /** Only activations and deactivations can fail, and then the boosts of all limited users are gone. */
  lemma FailureLeavesLeaks(s: State, i: CycleInput)
    requires Consistent(s) && Evaluated(i) && !Succeeds(s, i)
    ensures RunCycle(s, i).boostedAt == s.boostedAt - s.activeUsers
    ensures NoLeak(s) ==> RunCycle(s, i).boostedAt == map[]
  {
    SuccessIs(s, i);
    hide Succeeds;
    DecideKeepsTables(s, i.reading.value, i.limited, i.ema, i.clock.decide);
    var (d, decided) := CycleDecision(s, i);
    hide Decide, ActivateLimits, DeactivateLimits, ReleaseIdle;
    if d == Activate {
      ActivateOnlyAdds(decided, i.reading.value, i.effects, i.clock.apply);
    } else {
      DeactivateSummary(decided, i.effects);
    }
  }

  lemma SuccessReverts(s: State, i: CycleInput)
    requires Evaluated(i) && s.hasWatcher && CycleExecution(s, i).0
    ensures Unexpired(RunCycle(s, i), i.clock.revert)
  {
    WatcherStays(s, i);
    hide CycleExecution, ResetWeights;
    var executed := CycleExecution(s, i).1;
    assert RunCycle(s, i) == RevertBoosts(executed, i.effects.weightFails, i.clock.revert);
  }

  lemma FailureKeepsConfig(s: State, i: CycleInput)
    requires Evaluated(i) && !CycleExecution(s, i).0
    ensures RunCycle(s, i).cfg == s.cfg
  {
    WatcherStays(s, i);
    hide CycleExecution;
  }

  lemma LeaksExpire(s: State, after: State, now: int)
    requires after.boostedAt == s.boostedAt - s.activeUsers && after.cfg == s.cfg
    ensures Unexpired(after, now)
       <==> forall uid | uid in s.boostedAt && uid !in s.activeUsers ::
              now - s.boostedAt[uid] < s.cfg.psiBoostDuration * SECOND
  {
    forall uid ensures uid in after.boostedAt <==> uid in s.boostedAt && uid !in s.activeUsers {
    }
  }

  /**
    A cycle leaves no expired boost exactly if its decision can be carried out, or no boost
    of a user that is not limited has expired. So a failure matters only after a leak.
  */
  lemma ExpiryIff(s: State, i: CycleInput)
    requires Consistent(s) && Evaluated(i) && s.hasWatcher
    ensures Unexpired(RunCycle(s, i), i.clock.revert)
       <==> Succeeds(s, i)
            || forall uid | uid in s.boostedAt && uid !in s.activeUsers ::
                 i.clock.revert - s.boostedAt[uid] < s.cfg.psiBoostDuration * SECOND
  {
    SuccessIs(s, i);
    if Succeeds(s, i) {
      SuccessReverts(s, i);
    } else {
      FailureLeavesLeaks(s, i);
      FailureKeepsConfig(s, i);
      hide RunCycle, CycleExecution, Succeeds, NoLeak, Consistent;
      LeaksExpire(s, RunCycle(s, i), i.clock.revert);
    }
  }

  /**
    After every evaluated cycle with a watcher all remaining boosts are young, if activation
    was never forced or the cycle's decision can be carried out. With weight writes succeeding, a
    limited user whose weight is not the normal one then has a young boost or still waits
    for its placement.
  */
  lemma BoostsExpire(cfg: Config, w: bool, es: seq<Event>, i: CycleInput)
    requires Evaluated(i) && Run(Initial(cfg, w), es).hasWatcher
    requires (forall e | e in es :: !e.ForceActivate?) || Succeeds(Run(Initial(cfg, w), es), i)
    ensures var after := Step(Run(Initial(cfg, w), es), Cycle(i));
            && Unexpired(after, i.clock.revert)
            && ((forall e | e in es :: WeightsWritten(e)) && WeightsWritten(Cycle(i)) ==>
                  forall uid | uid in after.activeUsers && Weight(after, uid) != NORMAL_WEIGHT ::
                    uid in after.boostedAt || uid in after.placing)
  {
    var s := Run(Initial(cfg, w), es);
    RunIsConsistent(cfg, w, es);
    ExpiryIff(s, i);
    if !Succeeds(s, i) {
      RunDoesNotLeak(cfg, w, es);
      assert s.boostedAt.Keys <= s.activeUsers;
    }
    if (forall e | e in es :: WeightsWritten(e)) && WeightsWritten(Cycle(i)) {
      RunAccountsForBoosts(cfg, w, es);
      StepKeepsAccounted(s, Cycle(i));
      YoungOrWaiting(Step(s, Cycle(i)));
    }
  }

  lemma YoungOrWaiting(s: State)
    requires BoostsAccounted(s)
    ensures forall uid | uid in s.activeUsers && Weight(s, uid) != NORMAL_WEIGHT :: uid in s.boostedAt || uid in s.placing
  {
    forall uid | uid in s.activeUsers && Weight(s, uid) != NORMAL_WEIGHT ensures uid in s.boostedAt || uid in s.placing {
      assert Accounted(s, uid);
    }
  }
}
