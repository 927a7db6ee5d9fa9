/**
  The manager as an object whose methods update its fields, each method proved
  to perform the corresponding step of ControlModel.
*/
module StateManager {
  import opened Common
  import opened ControlModel

  /** `ThresholdTracker`: since when a threshold has been exceeded. */
  class ThresholdTracker {
    var firstOverThresholdTime: Instant
    var overThresholdCycles: nat
    var totalCycles: nat

    ghost function View(): Tracker
      reads this
    {
      Tracker(firstOverThresholdTime, overThresholdCycles, totalCycles)
    }

    constructor ()
      ensures View() == ZeroTracker
    {
      firstOverThresholdTime, overThresholdCycles, totalCycles := None, 0, 0;
    }

    method Reset()
      modifies this
      ensures View() == ZeroTracker
    {
      firstOverThresholdTime := None;
      overThresholdCycles := 0;
      totalCycles := 0;
    }

    method ShouldActivateLimits(current: real, threshold: real, requiredDuration: int, now: int) returns (ready: bool)
      modifies this
      ensures (View(), ready) == Observe(old(View()), current, threshold, requiredDuration, now)
    {
      if current >= threshold {
        overThresholdCycles := overThresholdCycles + 1;
        if firstOverThresholdTime.None? {
          firstOverThresholdTime := Some(now);
        }
        totalCycles := totalCycles + 1;
        if now - firstOverThresholdTime.value >= requiredDuration {
          return true;
        }
      } else {
        firstOverThresholdTime := None;
        overThresholdCycles := 0;
      }
      return false;
    }
  }

  class Manager {
    var cfg: Config
    var limitsActive: bool
    var limitsAppliedTime: Instant
    var activeUsers: set<Uid>
    var sharedCgroupPath: string
    const thresholdTracker: ThresholdTracker
    const ioThresholdTracker: ThresholdTracker
    var underThreshold: map<Uid, int>
    var psiBoostedAt: map<Uid, int>
    var placing: multiset<Uid>
    var releasing: multiset<Uid>
    var weights: map<Uid, int>
    var monitors: Monitored
    const hasWatcher: bool

    ghost const Repr: set<object> := {this, thresholdTracker, ioThresholdTracker}

    ghost predicate Valid() {
      thresholdTracker != ioThresholdTracker
    }

    ghost function View(): State
      reads Repr
    {
      State(cfg, limitsActive, limitsAppliedTime, activeUsers, sharedCgroupPath,
            thresholdTracker.View(), ioThresholdTracker.View(), underThreshold,
            psiBoostedAt, placing, releasing, weights, monitors, hasWatcher)
    }

    constructor (cfg: Config, hasWatcher: bool)
      ensures Valid() && fresh(Repr) && View() == Initial(cfg, hasWatcher)
    {
      this.cfg, this.hasWatcher := cfg, hasWatcher;
      limitsActive, limitsAppliedTime, activeUsers, sharedCgroupPath := false, None, {}, "";
      thresholdTracker := new ThresholdTracker();
      ioThresholdTracker := new ThresholdTracker();
      underThreshold, psiBoostedAt, weights := map[], map[], map[];
      placing, releasing, monitors := multiset{}, multiset{}, Monitored({}, {});
    }

    /** The sampling loop of `makeDecision`. */
    method SampleLimitedUsers(limited: set<Uid>, ema: map<Uid, real>, release: real)
      modifies this`underThreshold
      ensures underThreshold == CountSamples(old(underThreshold), limited, ema, release)
    {
      var todo := limited;
      ghost var done: set<Uid> := {};
      CountNobody(underThreshold, ema, release);
      while todo != {}
        invariant todo !! done && todo + done == limited
        invariant underThreshold == CountSamples(old(underThreshold), done, ema, release)
      {
        var uid := Next(todo);
        todo := todo - {uid};
        CountOneMore(old(underThreshold), done, uid, ema, release);
        done := done + {uid};
        if uid in ema {
          if ema[uid] < release {
            underThreshold := underThreshold[uid := Lookup(underThreshold, uid, 0) + 1];
          } else {
            underThreshold := underThreshold[uid := 0];
          }
        }
      }
      assert done == limited;
    }

    /** The stability loop of `makeDecision`. */
    method AllStable(limited: set<Uid>) returns (stable: bool)
      ensures stable == Stable(underThreshold, limited)
    {
      var todo := limited;
      while todo != {}
        invariant todo <= limited
        invariant Stable(underThreshold, limited - todo)
      {
        var uid := Next(todo);
        todo := todo - {uid};
        if Lookup(underThreshold, uid, 0) < 3 {
          return false;
        }
      }
      return true;
    }

    method ResetTrackers()
      requires Valid()
      modifies thresholdTracker, ioThresholdTracker
      ensures View() == old(View()).(cpuTracker := ZeroTracker, ioTracker := ZeroTracker)
    {
      thresholdTracker.Reset();
      ioThresholdTracker.Reset();
    }

    /** The I/O duration check of `makeDecision`. */
    method CheckIODuration(m: Metrics, now: int) returns (ioExceeded: bool)
      modifies ioThresholdTracker
      ensures (ioThresholdTracker.View(), ioExceeded) == ObserveIO(old(View()), m, now)
    {
      ioExceeded := IOExceeded(cfg, m);
      if cfg.ioDuration > 0 && ioExceeded {
        ioExceeded := ioThresholdTracker.ShouldActivateLimits(
          IOPercent(cfg, m), cfg.ioThreshold as real, cfg.ioDuration * SECOND, now);
      } else {
        ioThresholdTracker.Reset();
      }
    }

    /** `makeDecision` while limits are active. */
    method MayDeactivate(m: Metrics, limited: set<Uid>, ema: map<Uid, real>, now: int) returns (d: Decision)
      requires Valid()
      modifies this`underThreshold, thresholdTracker, ioThresholdTracker
      ensures (d, View()) == DecideActive(old(View()), m, limited, ema, now)
    {
      if !ElapsedAtLeast(now, limitsAppliedTime, cfg.minActiveTime * SECOND) {
        return Maintain;
      }
      if !AllBelow(cfg, m) {
        return Maintain;
      }
      SampleLimitedUsers(limited, ema, cfg.cpuRelease as real);
      var stable := AllStable(limited);
      if !m.underLoad && stable {
        ResetTrackers();
        return Deactivate;
      }
      return Maintain;
    }

    /** `makeDecision` while limits are inactive. */
    method MayActivate(m: Metrics, ioExceeded: bool, now: int) returns (d: Decision)
      requires Valid()
      modifies thresholdTracker, ioThresholdTracker
      ensures (d, View()) == DecideInactive(old(View()), m, ioExceeded, now)
    {
      var cpuExceeded := CPUExceeded(cfg, m);
      var ramExceeded := RAMExceeded(cfg, m);
      if cpuExceeded || ramExceeded || ioExceeded {
        if m.totalCores <= cfg.minSystemCores {
          ResetTrackers();
          return Maintain;
        }
        if !cfg.ignoreLoad && m.underLoad {
          ResetTrackers();
          return Maintain;
        }
        if cpuExceeded && cfg.cpuDuration > 0 {
          var ready := thresholdTracker.ShouldActivateLimits(
            m.limitedCPU, cfg.cpuThreshold as real, cfg.cpuDuration * SECOND, now);
          if !ready && !ramExceeded && !ioExceeded {
            return Maintain;
          }
        }
        return Activate;
      }
      ResetTrackers();
      return Maintain;
    }

    method MakeDecision(m: Metrics, limited: set<Uid>, ema: map<Uid, real>, now: int) returns (d: Decision)
      requires Valid()
      modifies this`underThreshold, thresholdTracker, ioThresholdTracker
      ensures (d, View()) == Decide(old(View()), m, limited, ema, now)
    {
      var ioExceeded := CheckIODuration(m, now);
      if limitsActive {
        d := MayDeactivate(m, limited, ema, now);
      } else {
        d := MayActivate(m, ioExceeded, now);
      }
    }

    method FindIdleUsers(m: Metrics) returns (idle: set<Uid>)
      ensures idle == IdleUsers(View(), m)
    {
      idle := {};
      var todo := activeUsers;
      while todo != {}
        invariant todo <= activeUsers
        invariant idle == IdleUsers(View(), m) - todo
      {
        var uid := Next(todo);
        todo := todo - {uid};
        if uid !in m.userCPU || m.userCPU[uid] < IDLE_THRESHOLD {
          idle := idle + {uid};
        }
      }
    }

    method FindReturningUsers(m: Metrics) returns (returning: set<Uid>)
      ensures returning == BusyUsers(m) - activeUsers
    {
      returning := {};
      var todo := m.eligible;
      while todo != {}
        invariant todo <= m.eligible
        invariant returning == BusyUsers(m) - activeUsers - todo
      {
        var uid := Next(todo);
        todo := todo - {uid};
        if uid !in activeUsers && uid in m.userCPU && m.userCPU[uid] >= IDLE_THRESHOLD {
          returning := returning + {uid};
        }
      }
    }

    /** The release loop of `releaseIdleUsers`. */
    method ReleaseAll(users: set<Uid>)
      modifies this`activeUsers, this`psiBoostedAt, this`monitors, this`releasing
      ensures activeUsers == old(activeUsers) - users
      ensures psiBoostedAt == old(psiBoostedAt) - users
      ensures monitors == Unwatch(hasWatcher, old(monitors), users)
      ensures releasing == old(releasing) + multiset(users)
    {
      var todo := users;
      while todo != {}
        invariant todo <= users
        invariant activeUsers - todo == old(activeUsers) - users
        invariant psiBoostedAt - todo == old(psiBoostedAt) - users
        invariant Unwatch(hasWatcher, monitors, todo) == Unwatch(hasWatcher, old(monitors), users)
        invariant releasing + multiset(todo) == old(releasing) + multiset(users)
      {
        var uid := Next(todo);
        todo := todo - {uid};
        activeUsers := activeUsers - {uid};
        psiBoostedAt := psiBoostedAt - {uid};
        if hasWatcher {
          monitors := Monitored(monitors.cpu - {uid}, monitors.io - {uid});
        }
        releasing := releasing + multiset{uid};
      }
    }

    /** One user enters the shared cgroup (the tail of both adding loops). */
    method AddUser(uid: Uid, effects: Effects)
      modifies this`activeUsers, this`monitors, this`placing
      ensures activeUsers == old(activeUsers) + {uid}
      ensures monitors == Watch(hasWatcher, old(monitors), {uid}, effects.monitorFails)
      ensures placing == old(placing) + multiset{uid}
    {
      if hasWatcher {
        if uid !in effects.monitorFails.cpu {
          monitors := monitors.(cpu := monitors.cpu + {uid});
        }
        if uid !in effects.monitorFails.io {
          monitors := monitors.(io := monitors.io + {uid});
        }
      }
      placing := placing + multiset{uid};
      activeUsers := activeUsers + {uid};
    }

    /** The adding loop of `releaseIdleUsers` and of `activateLimits`. */
    method AddAll(candidates: set<Uid>, effects: Effects) returns (added: set<Uid>, ok: bool)
      modifies this`activeUsers, this`monitors, this`placing
      ensures added == candidates - old(activeUsers) - effects.createFails
      ensures ok == ((candidates - old(activeUsers)) * effects.createFails == {})
      ensures activeUsers == old(activeUsers) + added
      ensures monitors == Watch(hasWatcher, old(monitors), added, effects.monitorFails)
      ensures placing == old(placing) + multiset(added)
    {
      ghost var target := candidates - activeUsers - effects.createFails;
      added, ok := {}, true;
      var todo := candidates;
      while todo != {}
        invariant todo <= candidates && added == target - todo
        invariant ok <==> candidates - old(activeUsers) - todo !! effects.createFails
        invariant activeUsers == old(activeUsers) + (target - todo)
        invariant Watch(hasWatcher, monitors, todo * target, effects.monitorFails)
                  == Watch(hasWatcher, old(monitors), target, effects.monitorFails)
        invariant placing + multiset(todo * target) == old(placing) + multiset(target)
      {
        var uid := Next(todo);
        todo := todo - {uid};
        if uid !in activeUsers {
          if uid in effects.createFails {
            ok := false;
          } else {
            AddUser(uid, effects);
            added := added + {uid};
          }
        }
      }
    }

    method ReleaseIdleUsers(m: Metrics, effects: Effects, now: int)
      modifies this`limitsAppliedTime, this`activeUsers, this`psiBoostedAt, this`monitors, this`placing, this`releasing
      ensures View() == ReleaseIdle(old(View()), m, effects, now)
    {
      hide Watch, Unwatch, IdleUsers, BusyUsers;
      if !limitsActive {
        return;
      }
      var usersToRelease := FindIdleUsers(m);
      var usersToAdd := FindReturningUsers(m);
      ReleaseAll(usersToRelease);
      ghost var released := View();
      assert released == ReleaseUsers(old(View()), usersToRelease);
      if usersToAdd != {} && sharedCgroupPath != "" {
        var added := ReAddUsers(usersToAdd, effects);
        if added != {} {
          limitsAppliedTime := Some(now);
        }
      } else {
        AddNobody(released, effects);
      }
    }

    method ReAddUsers(users: set<Uid>, effects: Effects) returns (added: set<Uid>)
      requires users !! activeUsers
      modifies this`activeUsers, this`monitors, this`placing
      ensures added == users - effects.createFails
      ensures View() == AddUsers(old(View()), added, effects)
    {
      var ok;
      added, ok := AddAll(users, effects);
    }

    /** Phase 1 of `activateLimits`. */
    method DropGoneUsers(present: set<Uid>) returns (removedCount: nat)
      modifies this`activeUsers
      ensures activeUsers == old(activeUsers) * present
      ensures removedCount > 0 <==> activeUsers != old(activeUsers)
    {
      removedCount := 0;
      var todo := activeUsers;
      while todo != {}
        invariant todo <= old(activeUsers)
        invariant activeUsers == old(activeUsers) * (present + todo)
        invariant removedCount > 0 <==> activeUsers != old(activeUsers)
      {
        var uid := Next(todo);
        todo := todo - {uid};
        if uid !in present {
          activeUsers := activeUsers - {uid};
          removedCount := removedCount + 1;
        }
      }
    }

    /** Phase 2 of `activateLimits`. */
    method EnsureSharedCgroup(effects: Effects) returns (ok: bool)
      modifies this`sharedCgroupPath
      ensures (ok, View()) == OpenShared(old(View()), effects)
    {
      if sharedCgroupPath == "" {
        if effects.sharedBase.None? {
          return false;
        }
        sharedCgroupPath := SharedPath(effects.sharedBase.value);
        if !effects.quotaOk {
          return false;
        }
      }
      return true;
    }

    /** Phase 3 of `activateLimits`. */
    method EnrolUsers(m: Metrics, dropped: bool, effects: Effects, now: int) returns (ok: bool)
      modifies this`activeUsers, this`monitors, this`placing, this`limitsActive, this`limitsAppliedTime
      ensures (ok, View()) == Enrol(old(View()), dropped, m, effects, now)
    {
      hide Watch;
      var added;
      added, ok := AddAll(m.eligible, effects);
      assert View() == AddUsers(old(View()), added, effects);
      hide AddUsers;
      if added != {} || dropped {
        limitsActive := true;
        limitsAppliedTime := Some(now);
      }
    }

    method ActivateNow(m: Metrics, effects: Effects, now: int) returns (ok: bool)
      modifies this
      ensures (ok, View()) == ActivateLimits(old(View()), m, effects, now)
    {
      var removedCount := DropGoneUsers(m.userCPU.Keys);
      ok := EnsureSharedCgroup(effects);
      if !ok {
        return;
      }
      ok := EnrolUsers(m, removedCount > 0, effects, now);
    }

    /** The restoring loop of `deactivateLimits`. */
    method RestoreLimits(users: set<Uid>, restoreFails: set<Uid>) returns (ok: bool)
      ensures ok == (users * restoreFails == {})
    {
      ok := true;
      var todo := users;
      while todo != {}
        invariant todo <= users
        invariant ok == ((users - todo) * restoreFails == {})
      {
        var uid := Next(todo);
        todo := todo - {uid};
        if uid in restoreFails {
          ok := false;
          assert uid in (users - todo) * restoreFails;
        } else {
          assert (users - todo) * restoreFails == (users - todo - {uid}) * restoreFails;
        }
      }
      assert users - todo == users;
    }

    method DeactivateNow(effects: Effects) returns (ok: bool)
      modifies this
      ensures (ok, View()) == DeactivateLimits(old(View()), effects)
    {
      WaitForTasks(effects.weightFails);
      var usersToCleanup := activeUsers;
      ForgetUsers(usersToCleanup);
      ok := RestoreLimits(usersToCleanup, effects.restoreFails);
    }

    /** The part of `deactivateLimits` that clears the manager's tables. */
    method ForgetUsers(usersToCleanup: set<Uid>)
      modifies this`activeUsers, this`limitsActive, this`limitsAppliedTime, this`sharedCgroupPath
      modifies this`monitors, this`underThreshold, this`psiBoostedAt
      ensures View() == old(View()).(activeUsers := {}, limitsActive := false, appliedAt := None, sharedPath := "",
                          monitors := Unwatch(hasWatcher, old(monitors), usersToCleanup),
                          under := old(underThreshold) - usersToCleanup,
                          boostedAt := old(psiBoostedAt) - usersToCleanup)
    {
      activeUsers := {};
      limitsActive := false;
      limitsAppliedTime := None;
      sharedCgroupPath := "";
      if hasWatcher {
        monitors := Monitored(monitors.cpu - usersToCleanup, monitors.io - usersToCleanup);
      }
      underThreshold := underThreshold - usersToCleanup;
      psiBoostedAt := psiBoostedAt - usersToCleanup;
    }

    /** `wg.Wait()`: the pending goroutines finish one after the other, in any order. */
    method WaitForTasks(weightFails: set<Uid>)
      modifies this`placing, this`releasing, this`weights
      ensures View() == Drain(old(View()), weightFails)
    {
      while releasing != multiset{}
        invariant View() == old(View()).(releasing := releasing)
        decreases |releasing|
      {
        var uid := NextOf(releasing);
        FinishOne(Release(uid), true);
      }
      WaitForPlacements(weightFails);
    }

    method WaitForPlacements(weightFails: set<Uid>)
      modifies this`placing, this`weights
      ensures placing == multiset{}
      ensures weights == ResetWeights(old(weights), Placed(old(placing), weightFails))
    {
      while placing != multiset{}
        invariant ResetWeights(weights, Placed(placing, weightFails))
                  == ResetWeights(old(weights), Placed(old(placing), weightFails))
        decreases |placing|
      {
        var uid := NextOf(placing);
        PlaceOneMore(weights, placing, weightFails, uid);
        placing := placing - multiset{uid};
        if uid !in weightFails {
          weights := weights[uid := NORMAL_WEIGHT];
        }
      }
      ResetNobody(weights);
      assert Placed(multiset{}, weightFails) == {};
    }

    method FinishOne(t: Task, weightOk: bool)
      modifies this`placing, this`releasing, this`weights
      ensures View() == FinishTask(old(View()), t, weightOk)
    {
      hide ResetWeights;
      match t {
        case Release(uid) =>
          releasing := releasing - multiset{uid};
        case Place(uid) =>
          if uid in placing {
            placing := placing - multiset{uid};
            if weightOk {
              ResetJust(weights, uid);
              weights := weights[uid := NORMAL_WEIGHT];
            }
          }
      }
    }

    method OnUserPSIEvent(uid: Uid, now: int, weightOk: bool)
      modifies this
      ensures View() == BoostUser(old(View()), uid, now, weightOk)
    {
      if uid.id <= 0 || uid !in activeUsers || !weightOk {
        return;
      }
      weights := weights[uid := Clamp(cfg.psiBoostWeight)];
      psiBoostedAt := psiBoostedAt[uid := now];
    }

    method FindExpiredBoosts(now: int) returns (expired: set<Uid>)
      ensures expired == ExpiredBoosts(View(), now)
    {
      expired := {};
      var todo := psiBoostedAt.Keys;
      while todo != {}
        invariant todo <= psiBoostedAt.Keys
        invariant expired == ExpiredBoosts(View(), now) - todo
      {
        var uid := Next(todo);
        todo := todo - {uid};
        if now - psiBoostedAt[uid] >= cfg.psiBoostDuration * SECOND {
          expired := expired + {uid};
        }
      }
    }

    method RevertPSIBoosts(weightFails: set<Uid>, now: int)
      modifies this`weights, this`psiBoostedAt
      ensures View() == RevertBoosts(old(View()), weightFails, now)
    {
      var expired := FindExpiredBoosts(now);
      ResetAll(expired, weightFails);
      psiBoostedAt := psiBoostedAt - expired;
    }

    method ResetAll(users: set<Uid>, weightFails: set<Uid>)
      modifies this`weights
      ensures weights == ResetWeights(old(weights), users - weightFails)
    {
      var todo := users;
      while todo != {}
        invariant todo <= users
        invariant ResetWeights(weights, todo - weightFails) == ResetWeights(old(weights), users - weightFails)
      {
        var uid := Next(todo);
        ResetNext(weights, todo, weightFails, uid);
        todo := todo - {uid};
        if uid !in weightFails {
          weights := weights[uid := NORMAL_WEIGHT];
        }
      }
      ResetNobody(weights);
    }

    method RunControlCycle(i: CycleInput)
      requires Valid()
      modifies Repr
      ensures View() == RunCycle(old(View()), i)
    {
      if i.blackout || i.reading.None? {
        return;
      }
      var m := i.reading.value;
      var d := MakeDecision(m, i.limited, i.ema, i.clock.decide);
      var ok := true;
      match d {
        case Activate => ok := ActivateNow(m, i.effects, i.clock.apply);
        case Deactivate => ok := DeactivateNow(i.effects);
        case Maintain => ReleaseIdleUsers(m, i.effects, i.clock.apply);
      }
      if ok && hasWatcher {
        RevertPSIBoosts(i.effects.weightFails, i.clock.revert);
      }
    }

    method ForceActivateLimits(reading: Option<Metrics>, effects: Effects, now: int) returns (ok: bool)
      modifies this
      ensures View() == Step(old(View()), Event.ForceActivate(reading, effects, now))
      ensures ok <==> reading.Some? && ActivateLimits(old(View()), reading.value, effects, now).0
    {
      if reading.None? {
        return false;
      }
      ok := ActivateNow(reading.value, effects, now);
    }

    method ForceDeactivateLimits(effects: Effects) returns (ok: bool)
      modifies this
      ensures View() == Step(old(View()), Event.ForceDeactivate(effects))
      ensures ok <==> DeactivateLimits(old(View()), effects).0
    {
      ok := DeactivateNow(effects);
      underThreshold := map[];
    }

    /** `UpdateConfig`, where None is a nil configuration. */
    method ReplaceConfig(newConfig: Option<Config>)
      modifies this`cfg
      ensures View() == if newConfig.None? then old(View()) else Step(old(View()), Event.UpdateConfig(newConfig.value))
    {
      if newConfig.Some? {
        cfg := newConfig.value;
      }
    }
  }

  // Each loop treats its users one at a time; the step functions treat them all at once.

  lemma CountNobody(under: map<Uid, int>, ema: map<Uid, real>, release: real)
    ensures CountSamples(under, {}, ema, release) == under
  {
    assert under.Keys + ({} * ema.Keys) == under.Keys;
  }

  lemma CountOneMore(under: map<Uid, int>, done: set<Uid>, uid: Uid, ema: map<Uid, real>, release: real)
    requires uid !in done
    ensures var c := CountSamples(under, done, ema, release);
            CountSamples(under, done + {uid}, ema, release)
            == if uid !in ema then c else if ema[uid] < release then c[uid := Lookup(c, uid, 0) + 1] else c[uid := 0]
  {
  }

  lemma ResetJust(weights: map<Uid, int>, uid: Uid)
    ensures ResetWeights(weights, {uid}) == weights[uid := NORMAL_WEIGHT]
  {
  }

  lemma ResetOneMore(weights: map<Uid, int>, others: set<Uid>, uid: Uid)
    ensures ResetWeights(weights, others + {uid}) == ResetWeights(weights[uid := NORMAL_WEIGHT], others)
  {
  }

  lemma ResetNobody(weights: map<Uid, int>)
    ensures ResetWeights(weights, {}) == weights
  {
  }

  lemma ResetNext(weights: map<Uid, int>, todo: set<Uid>, fails: set<Uid>, uid: Uid)
    requires uid in todo
    ensures ResetWeights(weights, todo - fails)
            == ResetWeights(if uid in fails then weights else weights[uid := NORMAL_WEIGHT], todo - {uid} - fails)
  {
    var left := todo - {uid} - fails;
    assert todo - fails == if uid in fails then left else left + {uid};
    ResetOneMore(weights, left, uid);
  }

  lemma PlaceOneMore(weights: map<Uid, int>, placing: multiset<Uid>, fails: set<Uid>, uid: Uid)
    requires uid in placing
    ensures var left := Placed(placing - multiset{uid}, fails);
            ResetWeights(weights, Placed(placing, fails))
            == ResetWeights(if uid in fails then weights else weights[uid := NORMAL_WEIGHT], left)
  {
    var left := Placed(placing - multiset{uid}, fails);
    assert Placed(placing, fails) == if uid in fails then left else left + {uid};
    ResetOneMore(weights, left, uid);
  }

  lemma AddNobody(s: State, effects: Effects)
    ensures AddUsers(s, {}, effects) == s
  {
  }
}
