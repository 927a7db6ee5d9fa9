/** What one step of the manager does to one user, in terms of the reading, the clock and the cgroup answers. */
module ControlEffects {
  import opened Common
  import opened ControlDecisions
  import opened ControlInvariants
  import opened ControlModel

  /** The reading shows the user at 0.1% CPU or more. */
  predicate Busy(m: Metrics, uid: Uid) { uid in m.userCPU && m.userCPU[uid] >= 0.1 }

  ghost predicate Joins(s: State, after: State, uid: Uid) { uid !in s.activeUsers && uid in after.activeUsers }

  ghost predicate Leaves(s: State, after: State, uid: Uid) { uid in s.activeUsers && uid !in after.activeUsers }

  predicate Shareable(s: State, effects: Effects) {
    s.sharedPath != "" || (effects.sharedBase.Some? && effects.quotaOk)
  }

  ghost predicate Starts(s: State, i: CycleInput)
    requires Evaluated(i)
  {
    !s.limitsActive && OverThreshold(s, i) && Spare(s.cfg, i.reading.value)
  }

  ghost predicate Stops(s: State, i: CycleInput)
    requires Evaluated(i)
  {
    s.limitsActive && ReleaseDue(s, i)
  }

  /** The three kinds of cycle. */
  lemma DecisionIs(s: State, i: CycleInput)
    requires Evaluated(i)
    ensures CycleDecision(s, i).0 == (if Starts(s, i) then Activate else if Stops(s, i) then Deactivate else Maintain)
  {
    if s.limitsActive {
      DeactivatesIff(s, i);
    } else {
      ActivatesIff(s, i);
    }
  }

  // ------------------------------------------------------- maintaining

  /** What a maintain step of active limits leaves of one user. */
  ghost predicate Maintained(s: State, m: Metrics, effects: Effects, now: int, after: State, uid: Uid) {
    && (uid in after.activeUsers
        <==> Busy(m, uid) && (uid in s.activeUsers || (uid in m.eligible && uid !in effects.createFails)))
    && (uid in after.boostedAt <==> uid in s.boostedAt && !Leaves(s, after, uid))
    && (uid in after.boostedAt ==> after.boostedAt[uid] == s.boostedAt[uid])
    && after.placing[uid] == s.placing[uid] + (if Joins(s, after, uid) then 1 else 0)
    && after.releasing[uid] == s.releasing[uid] + (if Leaves(s, after, uid) then 1 else 0)
    && Monitors(s, effects, after, uid)
  }

  /** Who joins is watched as far as AddMonitor works, and who leaves is not watched any more. */
  ghost predicate Monitors(s: State, effects: Effects, after: State, uid: Uid) {
    && (uid in after.monitors.cpu
        <==> if Joins(s, after, uid) && s.hasWatcher && uid !in effects.monitorFails.cpu then true
             else uid in s.monitors.cpu && !(s.hasWatcher && Leaves(s, after, uid)))
    && (uid in after.monitors.io
        <==> if Joins(s, after, uid) && s.hasWatcher && uid !in effects.monitorFails.io then true
             else uid in s.monitors.io && !(s.hasWatcher && Leaves(s, after, uid)))
  }

  /** A maintain step releases idle users and adds others. */
  lemma MaintainForm(s: State, m: Metrics, effects: Effects, now: int)
    requires s.limitsActive && s.sharedPath != ""
    ensures var after := ReleaseIdle(s, m, effects, now);
            var idle, added := IdleUsers(s, m), BusyUsers(m) - s.activeUsers - effects.createFails;
            && after.activeUsers == s.activeUsers - idle + added && after.boostedAt == s.boostedAt - idle
            && after.placing == s.placing + multiset(added) && after.releasing == s.releasing + multiset(idle)
            && after.monitors
               == Watch(s.hasWatcher, Unwatch(s.hasWatcher, s.monitors, idle), added, effects.monitorFails)
            && after.appliedAt == (if added == {} then s.appliedAt else Some(now))
            && after.limitsActive && after.sharedPath == s.sharedPath && after.weights == s.weights && after.under == s.under
  {
    hide IdleUsers, BusyUsers, Watch, Unwatch;
  }

  lemma WatchForm(w: bool, ms: Monitored, left: set<Uid>, added: set<Uid>, fails: Monitored, uid: Uid)
    requires left !! added
    ensures var after := Watch(w, Unwatch(w, ms, left), added, fails);
            && (uid in after.cpu <==> if w && uid in added && uid !in fails.cpu then true
                                      else uid in ms.cpu && !(w && uid in left))
            && (uid in after.io <==> if w && uid in added && uid !in fails.io then true
                                     else uid in ms.io && !(w && uid in left))
  {
  }

  lemma IdleOrBusy(s: State, m: Metrics, effects: Effects, uid: Uid)
    ensures uid in IdleUsers(s, m) <==> uid in s.activeUsers && !Busy(m, uid)
    ensures uid in BusyUsers(m) - s.activeUsers - effects.createFails
       <==> Busy(m, uid) && uid in m.eligible && uid !in s.activeUsers && uid !in effects.createFails
  {
  }

  lemma MaintainIs(s: State, m: Metrics, effects: Effects, now: int, uid: Uid)
    requires s.limitsActive && s.sharedPath != ""
    ensures Maintained(s, m, effects, now, ReleaseIdle(s, m, effects, now), uid)
  {
    hide ReleaseIdle, Watch, Unwatch, IdleUsers, BusyUsers, Busy;
    var after := ReleaseIdle(s, m, effects, now);
    var idle, added := IdleUsers(s, m), BusyUsers(m) - s.activeUsers - effects.createFails;
    MaintainForm(s, m, effects, now);
    IdleOrBusy(s, m, effects, uid);
    assert uid in added <==> Joins(s, after, uid);
    assert uid in idle <==> Leaves(s, after, uid);
    NobodyStays(s, m, effects);
    WatchForm(s.hasWatcher, s.monitors, idle, added, effects.monitorFails, uid);
  }

  lemma NobodyStays(s: State, m: Metrics, effects: Effects)
    ensures IdleUsers(s, m) !! BusyUsers(m) - s.activeUsers - effects.createFails
  {
  }

  lemma MaintainGate(s: State, m: Metrics, effects: Effects, now: int)
    requires s.limitsActive && s.sharedPath != ""
    ensures var after := ReleaseIdle(s, m, effects, now);
            && after.limitsActive && after.sharedPath == s.sharedPath && after.weights == s.weights && after.under == s.under
            && after.appliedAt == if exists uid :: Joins(s, after, uid) then Some(now) else s.appliedAt
  {
    MaintainForm(s, m, effects, now);
    hide ReleaseIdle, IdleUsers, BusyUsers, Watch, Unwatch;
    var added := BusyUsers(m) - s.activeUsers - effects.createFails;
    assert forall uid :: uid in added <==> Joins(s, ReleaseIdle(s, m, effects, now), uid);
  }

  // ------------------------------------------------------- activating

  /** What an activation leaves of one user. */
  ghost predicate Activated(s: State, m: Metrics, effects: Effects, after: State, uid: Uid) {
    && (uid in after.activeUsers
        <==> || (uid in s.activeUsers && uid in m.userCPU)
             || (Shareable(s, effects) && uid in m.eligible && uid !in effects.createFails))
    && after.placing[uid]
       == s.placing[uid] + (if uid in after.activeUsers && !(uid in s.activeUsers && uid in m.userCPU) then 1 else 0)
    && (uid in after.monitors.cpu
        <==> || uid in s.monitors.cpu
             || (s.hasWatcher && Enters(s, m, after, uid) && uid !in effects.monitorFails.cpu))
    && (uid in after.monitors.io
        <==> || uid in s.monitors.io
             || (s.hasWatcher && Enters(s, m, after, uid) && uid !in effects.monitorFails.io))
  }

  /** The user is limited anew: it was not, or was forgotten as gone. */
  ghost predicate Enters(s: State, m: Metrics, after: State, uid: Uid) {
    uid in after.activeUsers && !(uid in s.activeUsers && uid in m.userCPU)
  }

  /** The users that an activation wants and gets. */
  function Enrolled(s: State, m: Metrics, effects: Effects): set<Uid> {
    if Shareable(s, effects) then m.eligible - s.activeUsers * m.userCPU.Keys - effects.createFails else {}
  }

  lemma ActivationForm(s: State, m: Metrics, effects: Effects, now: int)
    ensures var after := ActivateLimits(s, m, effects, now).1;
            var kept, added := s.activeUsers * m.userCPU.Keys, Enrolled(s, m, effects);
            var moves := Shareable(s, effects) && (added != {} || kept != s.activeUsers);
            && after.activeUsers == kept + added && after.placing == s.placing + multiset(added)
            && after.monitors == Watch(s.hasWatcher, s.monitors, added, effects.monitorFails)
            && after.limitsActive == (s.limitsActive || moves)
            && after.appliedAt == (if moves then Some(now) else s.appliedAt)
            && after.boostedAt == s.boostedAt && after.weights == s.weights && after.releasing == s.releasing
            && after.under == s.under
            && after.sharedPath == (if s.sharedPath != "" || effects.sharedBase.None? then s.sharedPath
                                    else effects.sharedBase.value + "/limited")
  {
    var kept := s.(activeUsers := s.activeUsers * m.userCPU.Keys);
    NobodyIsWatched(s, effects);
    OpenForm(kept, effects);
    EnrolForm(OpenShared(kept, effects).1, kept.activeUsers != s.activeUsers, m, effects, now);
    hide Watch, OpenShared, Enrol;
  }

  lemma OpenForm(s: State, effects: Effects)
    ensures OpenShared(s, effects).0 == Shareable(s, effects)
    ensures OpenShared(s, effects).1
         == s.(sharedPath := if s.sharedPath != "" || effects.sharedBase.None? then s.sharedPath
                             else effects.sharedBase.value + "/limited")
  {
  }

  lemma EnrolForm(s: State, dropped: bool, m: Metrics, effects: Effects, now: int)
    ensures var after := Enrol(s, dropped, m, effects, now).1;
            var added := m.eligible - s.activeUsers - effects.createFails;
            after == s.(activeUsers := s.activeUsers + added, placing := s.placing + multiset(added),
                        monitors := Watch(s.hasWatcher, s.monitors, added, effects.monitorFails),
                        limitsActive := s.limitsActive || added != {} || dropped,
                        appliedAt := if added != {} || dropped then Some(now) else s.appliedAt)
  {
    hide Watch;
  }

  lemma NobodyIsWatched(s: State, effects: Effects)
    ensures Watch(s.hasWatcher, s.monitors, {}, effects.monitorFails) == s.monitors
    ensures s.placing + multiset(var none: set<Uid> := {}; none) == s.placing
  {
  }

  lemma ActivationIs(s: State, m: Metrics, effects: Effects, now: int, uid: Uid)
    ensures Activated(s, m, effects, ActivateLimits(s, m, effects, now).1, uid)
  {
    ActivationForm(s, m, effects, now);
    hide ActivateLimits, Shareable;
    var added := Enrolled(s, m, effects);
    assert uid in added <==> Enters(s, m, ActivateLimits(s, m, effects, now).1, uid);
    NobodyLeaves(s);
    WatchForm(s.hasWatcher, s.monitors, {}, added, effects.monitorFails, uid);
    hide Enrolled, Watch;
  }

  lemma NobodyLeaves(s: State)
    ensures Unwatch(s.hasWatcher, s.monitors, {}) == s.monitors
  {
  }

  /** The fields that are not about one user. */
  lemma ActivationGate(s: State, m: Metrics, effects: Effects, now: int)
    ensures var after := ActivateLimits(s, m, effects, now).1;
            var moves := Shareable(s, effects)
                         && exists uid :: Enters(s, m, after, uid) || (uid in s.activeUsers && uid !in m.userCPU);
            && after.limitsActive == (s.limitsActive || moves)
            && after.appliedAt == (if moves then Some(now) else s.appliedAt)
            && after.boostedAt == s.boostedAt && after.weights == s.weights && after.releasing == s.releasing
            && after.under == s.under
            && after.sharedPath == (if s.sharedPath != "" || effects.sharedBase.None? then s.sharedPath
                                    else effects.sharedBase.value + "/limited")
  {
    ActivationForm(s, m, effects, now);
    var after := ActivateLimits(s, m, effects, now).1;
    var kept, added := s.activeUsers * m.userCPU.Keys, Enrolled(s, m, effects);
    assert forall uid :: uid in added <==> Enters(s, m, after, uid);
    hide ActivateLimits, Watch, Shareable, Enrolled, Enters;
    if kept != s.activeUsers {
      var uid :| uid in s.activeUsers && uid !in kept;
      assert uid in s.activeUsers && uid !in m.userCPU;
    }
  }

  // ------------------------------------------------------- deactivating

  lemma DeactivationIs(s: State, effects: Effects)
    ensures var after := DeactivateLimits(s, effects).1;
            && !after.limitsActive && after.activeUsers == {} && after.appliedAt == None && after.sharedPath == ""
            && after.placing == multiset{} && after.releasing == multiset{}
            && (forall uid :: uid in after.boostedAt <==> uid in s.boostedAt && uid !in s.activeUsers)
            && (forall uid | uid in after.boostedAt :: after.boostedAt[uid] == s.boostedAt[uid])
            && (forall uid :: uid in after.under <==> uid in s.under && uid !in s.activeUsers)
            && (forall uid | uid in after.under :: after.under[uid] == s.under[uid])
            && (forall uid :: Weight(after, uid) == if uid in s.placing && uid !in effects.weightFails then 100
                                                    else Weight(s, uid))
            && (forall uid :: uid in after.monitors.cpu <==> uid in s.monitors.cpu && !(s.hasWatcher && uid in s.activeUsers))
            && (forall uid :: uid in after.monitors.io <==> uid in s.monitors.io && !(s.hasWatcher && uid in s.activeUsers))
  {
  }

  // ------------------------------------------------------- whole cycles

  lemma SummaryOfRevert(s: State, fails: set<Uid>, now: int)
    ensures var after := RevertBoosts(s, fails, now);
            && after == s.(weights := after.weights, boostedAt := after.boostedAt)
            && (forall uid :: uid in after.boostedAt
                  <==> uid in s.boostedAt && now - s.boostedAt[uid] < s.cfg.psiBoostDuration * SECOND)
            && (forall uid | uid in after.boostedAt :: after.boostedAt[uid] == s.boostedAt[uid])
            && (forall uid :: Weight(after, uid)
                  == if uid in s.boostedAt && uid !in after.boostedAt && uid !in fails then 100 else Weight(s, uid))
  {
  }

  /** Who is limited after a cycle. */
  lemma LimitedIff(s: State, i: CycleInput, uid: Uid)
    requires Consistent(s) && Evaluated(i)
    ensures uid in RunCycle(s, i).activeUsers
       <==> var m := i.reading.value;
            var creatable := uid in m.eligible && uid !in i.effects.createFails;
            if s.limitsActive then !ReleaseDue(s, i) && Busy(m, uid) && (uid in s.activeUsers || creatable)
            else Starts(s, i) && Shareable(s, i.effects) && creatable
  {
    CycleSummary(s, i);
    DecisionIs(s, i);
    var (d, decided) := CycleDecision(s, i);
    hide RunCycle, CycleDecision, ReleaseIdle, ActivateLimits, DeactivateLimits, ReleaseDue, OverThreshold, Spare;
    match d
    case Activate => ActivationIs(decided, i.reading.value, i.effects, i.clock.apply, uid);
    case Deactivate => DeactivationIs(decided, i.effects);
    case Maintain =>
      if s.limitsActive {
        MaintainIs(decided, i.reading.value, i.effects, i.clock.apply, uid);
      } else {
        NothingToMaintain(decided, i.reading.value, i.effects, i.clock.apply);
      }
  }

  lemma NothingToMaintain(s: State, m: Metrics, effects: Effects, now: int)
    requires !s.limitsActive
    ensures ReleaseIdle(s, m, effects, now) == s
  {
  }

  /** The users, their monitors and the pending goroutines are the same in both. */
  predicate SameMoves(s: State, t: State) {
    && s.activeUsers == t.activeUsers && s.monitors == t.monitors && s.hasWatcher == t.hasWatcher
    && s.placing == t.placing && s.releasing == t.releasing
  }

  lemma MonitorsLookAt(s: State, t: State, effects: Effects, after: State, last: State, uid: Uid)
    requires SameMoves(s, t) && SameMoves(after, last)
    ensures Monitors(s, effects, after, uid) == Monitors(t, effects, last, uid)
    ensures Joins(s, after, uid) == Joins(t, last, uid) && Leaves(s, after, uid) == Leaves(t, last, uid)
  {
  }

  /** What executing a decision does to the monitors of a user and to what is pending for it. */
  lemma ActionMoves(s: State, d: Decision, m: Metrics, effects: Effects, now: int, uid: Uid)
    requires Consistent(s) && (d == Activate ==> !s.limitsActive)
    ensures var after := Execute(s, d, m, effects, now).1;
            && Monitors(s, effects, after, uid)
            && after.placing[uid] == (if d == Deactivate then 0 else s.placing[uid] + if Joins(s, after, uid) then 1 else 0)
            && after.releasing[uid] == (if d == Deactivate then 0 else s.releasing[uid] + if Leaves(s, after, uid) then 1 else 0)
  {
    hide ReleaseIdle, ActivateLimits, DeactivateLimits;
    match d
    case Activate =>
      assert s.activeUsers == {};
      ActivationIs(s, m, effects, now, uid);
      ActivationGate(s, m, effects, now);
    case Deactivate => DeactivationIs(s, effects);
    case Maintain =>
      if s.limitsActive {
        MaintainIs(s, m, effects, now, uid);
      } else {
        NothingToMaintain(s, m, effects, now);
      }
  }

  /** Which of the user's pressure files are watched after a cycle, and what is still pending for it. */
  lemma CycleMoves(s: State, i: CycleInput, uid: Uid)
    requires Consistent(s) && Evaluated(i)
    ensures var after := RunCycle(s, i);
            && Monitors(s, i.effects, after, uid)
            && after.placing[uid] == (if Stops(s, i) then 0 else s.placing[uid] + if Joins(s, after, uid) then 1 else 0)
            && after.releasing[uid] == (if Stops(s, i) then 0 else s.releasing[uid] + if Leaves(s, after, uid) then 1 else 0)
  {
    CycleSummary(s, i);
    DecideKeepsConsistent(s, i);
    DecisionIs(s, i);
    var (d, decided) := CycleDecision(s, i);
    hide RunCycle, CycleDecision, Execute, Stops, Starts, Monitors, Joins, Leaves, Consistent;
    ActionMoves(decided, d, i.reading.value, i.effects, i.clock.apply, uid);
    var executed := Execute(decided, d, i.reading.value, i.effects, i.clock.apply).1;
    MonitorsLookAt(s, decided, i.effects, RunCycle(s, i), executed, uid);
    StartsOrStops(s, i);
  }

  lemma StartsOrStops(s: State, i: CycleInput)
    requires Evaluated(i)
    ensures !(Starts(s, i) && Stops(s, i))
  {
  }

  /**
    The gate of MIN_ACTIVE_TIME moves exactly when somebody joins, and the shared cgroup is
    entered when it exists, even if its quota could not be set.
  */
  lemma CycleGate(s: State, i: CycleInput)
    requires Consistent(s) && Evaluated(i)
    ensures var after := RunCycle(s, i);
            && after.appliedAt == (if Stops(s, i) then None
                                   else if exists uid :: Joins(s, after, uid) then Some(i.clock.apply)
                                   else s.appliedAt)
            && after.sharedPath == (if Stops(s, i) then ""
                                    else if Starts(s, i) && s.sharedPath == "" && i.effects.sharedBase.Some?
                                    then i.effects.sharedBase.value + "/limited"
                                    else s.sharedPath)
  {
    CycleSummary(s, i);
    DecisionIs(s, i);
    var (d, decided) := CycleDecision(s, i);
    var m, now := i.reading.value, i.clock.apply;
    hide RunCycle, CycleDecision, ReleaseIdle, ActivateLimits, DeactivateLimits, ReleaseDue, OverThreshold, Spare;
    match d
    case Activate =>
      ActivationGate(decided, m, i.effects, now);
      var after := ActivateLimits(decided, m, i.effects, now).1;
      forall uid ensures Joins(s, RunCycle(s, i), uid) <==> Shareable(s, i.effects) && Enters(decided, m, after, uid) {
        ActivationIs(decided, m, i.effects, now, uid);
      }
    case Deactivate => DeactivationIs(decided, i.effects);
    case Maintain =>
      if s.limitsActive {
        MaintainGate(decided, m, i.effects, now);
        assert forall uid ::
            Joins(s, RunCycle(s, i), uid) <==> Joins(decided, ReleaseIdle(decided, m, i.effects, now), uid);
      } else {
        NothingToMaintain(decided, m, i.effects, now);
      }
  }

  // ------------------------------------------------------- boosts and weights

  /** What the action of a cycle, before boosts are reverted, leaves of the boosts and the weights. */
  lemma ActionKeepsBoosts(s: State, i: CycleInput, uid: Uid)
    requires Consistent(s) && Evaluated(i)
    ensures var executed := CycleExecution(s, i).1;
            && executed.activeUsers == RunCycle(s, i).activeUsers
            && executed.cfg == s.cfg && executed.hasWatcher == s.hasWatcher
            && (uid in executed.boostedAt <==> uid in s.boostedAt && !Leaves(s, executed, uid))
            && (uid in executed.boostedAt ==> executed.boostedAt[uid] == s.boostedAt[uid])
            && Weight(executed, uid)
               == if Stops(s, i) && uid in s.placing && uid !in i.effects.weightFails then 100 else Weight(s, uid)
  {
    CycleSummary(s, i);
    WatcherStays(s, i);
    DecisionIs(s, i);
    var (d, decided) := CycleDecision(s, i);
    var m, now := i.reading.value, i.clock.apply;
    hide RunCycle, CycleDecision, ReleaseIdle, ActivateLimits, DeactivateLimits, ReleaseDue, OverThreshold, Spare;
    match d
    case Activate => ActivationGate(decided, m, i.effects, now);
    case Deactivate => DeactivationIs(decided, i.effects);
    case Maintain =>
      if s.limitsActive {
        MaintainIs(decided, m, i.effects, now, uid);
        MaintainGate(decided, m, i.effects, now);
      } else {
        NothingToMaintain(decided, m, i.effects, now);
      }
  }

  /**
    A boost goes exactly if its user is released, or if it has lasted PSI_BOOST_DURATION when
    boosts are reverted. That happens with a watcher, in a cycle whose decision is carried
    out. Until then it keeps its time and its weight.
  */
  lemma BoostGoesIff(s: State, i: CycleInput, uid: Uid)
    requires Consistent(s) && Evaluated(i)
    ensures var after := RunCycle(s, i);
            var reverts := s.hasWatcher && Succeeds(s, i);
            var aged := uid in s.boostedAt && i.clock.revert - s.boostedAt[uid] >= s.cfg.psiBoostDuration * SECOND;
            && (uid in after.boostedAt <==> uid in s.boostedAt && !Leaves(s, after, uid) && !(reverts && aged))
            && (uid in after.boostedAt ==> after.boostedAt[uid] == s.boostedAt[uid])
            && Weight(after, uid)
               == (if reverts && aged && !Leaves(s, after, uid) && uid !in i.effects.weightFails then 100
                   else if Stops(s, i) && uid in s.placing && uid !in i.effects.weightFails then 100
                   else Weight(s, uid))
  {
    ActionKeepsBoosts(s, i, uid);
    SuccessIs(s, i);
    var executed := CycleExecution(s, i).1;
    SummaryOfRevert(executed, i.effects.weightFails, i.clock.revert);
    hide CycleExecution, Succeeds, RevertBoosts, Stops, Weight, Consistent;
  }

  /** In particular, while a user stays limited its boost lasts exactly as long as configured. */
  lemma BoostLasts(s: State, i: CycleInput, uid: Uid)
    requires Consistent(s) && Evaluated(i) && s.hasWatcher && Succeeds(s, i)
    requires uid in s.activeUsers && uid in RunCycle(s, i).activeUsers && uid in s.boostedAt
    ensures var after := RunCycle(s, i);
            var young := i.clock.revert - s.boostedAt[uid] < s.cfg.psiBoostDuration * SECOND;
            && (uid in after.boostedAt <==> young)
            && (young ==> after.boostedAt[uid] == s.boostedAt[uid] && Weight(after, uid) == Weight(s, uid))
            && (!young && uid !in i.effects.weightFails ==> Weight(after, uid) == 100)
  {
    BoostGoesIff(s, i, uid);
    LimitedIff(s, i, uid);
    hide RunCycle, CycleDecision, ReleaseDue, OverThreshold, Weight, Consistent, Succeeds;
  }

  // ------------------------------------------------------- the other steps

  /** A pressure event boosts exactly a limited user whose weight can be written, to the nearest weight cgroups accept. */
  lemma PressureIs(s: State, uid: Uid, now: int, weightOk: bool, u: Uid)
    ensures var after := Step(s, PsiEvent(uid, now, weightOk));
            var boosts := uid.id > 0 && uid in s.activeUsers && weightOk;
            && after == s.(boostedAt := after.boostedAt, weights := after.weights)
            && (u in after.boostedAt <==> u in s.boostedAt || (boosts && u == uid))
            && (u in after.boostedAt ==> after.boostedAt[u] == if boosts && u == uid then now else s.boostedAt[u])
            && (!(boosts && u == uid) ==> Weight(after, u) == Weight(s, u))
            && (boosts ==> 1 <= Weight(after, uid) <= 10000
                           && forall w | 1 <= w <= 10000 ::
                                Distance(Weight(after, uid), s.cfg.psiBoostWeight) <= Distance(w, s.cfg.psiBoostWeight))
  {
  }

  function Distance(a: int, b: int): nat { if a < b then b - a else a - b }

  /** A goroutine that ends is no longer pending; a placement leaves the normal weight if it can be written. */
  lemma FinishIs(s: State, t: Task, weightOk: bool, u: Uid)
    ensures var after := Step(s, Finish(t, weightOk));
            var placed := t.Place? && t.uid in s.placing;
            && after == s.(placing := after.placing, releasing := after.releasing, weights := after.weights)
            && after.placing[u] == (if placed && u == t.uid then s.placing[u] - 1 else s.placing[u])
            && after.releasing[u]
               == (if t.Release? && u == t.uid && u in s.releasing then s.releasing[u] - 1 else s.releasing[u])
            && Weight(after, u) == (if placed && weightOk && u == t.uid then 100 else Weight(s, u))
  {
    match t {
      case Release(_) =>
      case Place(uid) =>
        ResetIs(s.weights, {uid}, u);
        hide ResetWeights;
    }
  }

  lemma ResetIs(weights: map<Uid, int>, users: set<Uid>, u: Uid)
    ensures Lookup(ResetWeights(weights, users), u, 100) == if u in users then 100 else Lookup(weights, u, 100)
  {
  }

  /** A forced deactivation forgets every counter, and of the users all that a deactivation forgets. */
  lemma ForceDeactivationIs(s: State, effects: Effects)
    ensures var after := Step(s, Event.ForceDeactivate(effects));
            && after == DeactivateLimits(s, effects).1.(under := after.under) && after.under == map[]
  {
    hide DeactivateLimits;
  }

  /** In a blackout, or without a reading, a cycle does nothing; nor does a refresh. A new configuration is only that. */
  lemma SkippedIs(s: State, e: Event)
    ensures e.Cycle? && (e.input.blackout || e.input.reading.None?) ==> Step(s, e) == s
    ensures e.Refresh? || (e.ForceActivate? && e.reading.None?) ==> Step(s, e) == s
    ensures e.UpdateConfig? ==> Step(s, e) == s.(cfg := e.cfg)
  {
    if e.Cycle? && (e.input.blackout || e.input.reading.None?) {
      assert !Evaluated(e.input);
    }
    hide RunCycle, ActivateLimits;
    if e.Cycle? && !Evaluated(e.input) {
      IdleCycle(s, e.input);
    }
  }

  // ------------------------------------------------------- over runs

  /** AddMonitor always works, and activation is never forced. */
  predicate WatchesAll(e: Event) {
    !e.ForceActivate? && (e.Cycle? ==> e.input.effects.monitorFails == Monitored({}, {}))
  }

  /** Then the watched users are the limited users, in every run. */
  lemma {:induction false} RunIsWatched(cfg: Config, es: seq<Event>)
    requires forall e | e in es :: WatchesAll(e)
    ensures var s := Run(Initial(cfg, true), es);
            s.hasWatcher && s.monitors.cpu == s.activeUsers && s.monitors.io == s.activeUsers
  {
    if es != [] {
      var before, e := es[..|es| - 1], es[|es| - 1];
      assert e in es && forall x | x in before :: x in es;
      RunIsWatched(cfg, before);
      RunIsConsistent(cfg, true, before);
      hide RunCycle, DeactivateLimits, Consistent;
      StepIsWatched(Run(Initial(cfg, true), before), e);
    }
  }

  lemma StepIsWatched(s: State, e: Event)
    requires Consistent(s) && WatchesAll(e) && s.hasWatcher
    requires s.monitors.cpu == s.activeUsers && s.monitors.io == s.activeUsers
    ensures var after := Step(s, e);
            after.hasWatcher && after.monitors.cpu == after.activeUsers && after.monitors.io == after.activeUsers
  {
    hide RunCycle, DeactivateLimits, Consistent, FinishTask, BoostUser, Stops;
    match e {
      case Cycle(i) =>
        if Evaluated(i) {
          CycleKeepsWatcher(s, i);
          var after := RunCycle(s, i);
          forall uid
            ensures uid in after.monitors.cpu <==> uid in after.activeUsers
            ensures uid in after.monitors.io <==> uid in after.activeUsers
          {
            CycleMoves(s, i, uid);
          }
          assert after.monitors.cpu == after.activeUsers && after.monitors.io == after.activeUsers;
        } else {
          IdleCycle(s, i);
        }
      case PsiEvent(uid, now, ok) => PressureIs(s, uid, now, ok, uid);
      case Finish(t, ok) => FinishIs(s, t, ok, t.uid);
      case ForceDeactivate(fx) => DeactivationIs(s, fx); DeactivateSummary(s, fx);
      case _ =>
    }
  }

  lemma CycleKeepsWatcher(s: State, i: CycleInput)
    requires Evaluated(i)
    ensures RunCycle(s, i).hasWatcher == s.hasWatcher
  {
    WatcherStays(s, i);
    hide CycleExecution;
  }
}
