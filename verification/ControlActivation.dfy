/** What an activation of the limits proves about the readings before it. */
module ControlActivation {
  import opened Common
  import opened ControlFailures
  import opened ControlModel
  import opened ControlInvariants
  import opened ControlTiming

  // ------------------------------------------------------- the activation window

  /** The cycle that is event number `n` decides to activate limits. */
  ghost predicate ActivatesAt(s: State, es: seq<Event>, n: nat) {
    n < |es| && EvaluatedAt(es, n) && CycleDecision(At(s, es, n), es[n].input).0 == Activate
  }

  /** RAM is exceeded, or I/O after its own duration check; then an activation need not wait for the CPU. */
  predicate OtherCounts(s: State, i: CycleInput)
    requires Evaluated(i)
  {
    RAMExceeded(s.cfg, i.reading.value) || ObserveIO(s, i.reading.value, i.clock.decide).1
  }

  ghost predicate OtherCountsAt(s: State, es: seq<Event>, n: nat)
    requires n < |es| && EvaluatedAt(es, n)
  {
    OtherCounts(At(s, es, n), es[n].input)
  }

  predicate Permitted(cfg: Config, m: Metrics) { EnoughCores(cfg, m) && LoadAllowed(cfg, m) }

  predicate CallsForLimits(cfg: Config, m: Metrics) { CPUExceeded(cfg, m) && Permitted(cfg, m) }

  /** Event `j` is an evaluated cycle, and every evaluated cycle in `j..n` calls for limits because of the CPU. */
  ghost predicate HighSince(cfg: Config, es: seq<Event>, j: nat, n: nat)
    requires n <= |es|
  {
    j < n && EvaluatedAt(es, j)
    && forall k: nat | j <= k < n && EvaluatedAt(es, k) :: CallsForLimits(cfg, Reading(es, k))
  }

  /** The same while limits are inactive, where an activation for RAM or I/O may have taken the place of the CPU on the way. */
  ghost predicate CalledSince(cfg: Config, w: bool, es: seq<Event>, j: nat, n: nat)
    requires n <= |es|
  {
    j < n && EvaluatedAt(es, j) && CallsForLimits(cfg, Reading(es, j))
    && forall k: nat | j <= k < n && EvaluatedAt(es, k) ::
         CallsForLimits(cfg, Reading(es, k)) || OtherActivation(cfg, w, es, k)
  }

  /** An activation that RAM or I/O justifies. */
  ghost predicate OtherActivation(cfg: Config, w: bool, es: seq<Event>, k: nat)
    requires k < |es| && EvaluatedAt(es, k)
  {
    Permitted(cfg, Reading(es, k)) && OtherCountsAt(Initial(cfg, w), es, k) && ActivatesAt(Initial(cfg, w), es, k)
  }

  /** While limits are inactive, a running CPU timer was started by such an event. */
  ghost predicate TimerExplained(cfg: Config, w: bool, es: seq<Event>, n: nat)
    requires n <= |es|
  {
    var s := At(Initial(cfg, w), es, n);
    && s.cfg == cfg
    && (!s.limitsActive && s.cpuTracker.first.Some? ==>
          exists j: nat :: CalledSince(cfg, w, es, j, n) && es[j].input.clock.decide == s.cpuTracker.first.value)
  }

  /** What an evaluated cycle does to the CPU timer while limits are inactive. */
  lemma TimerDecision(s: State, i: CycleInput)
    requires Evaluated(i) && s.cfg.cpuDuration > 0 && !s.limitsActive
    ensures var (d, decided) := CycleDecision(s, i);
            var first := decided.cpuTracker.first;
            if CallsForLimits(s.cfg, i.reading.value) then
              && first == (if s.cpuTracker.first.None? then Some(i.clock.decide) else s.cpuTracker.first)
              && (d == Activate <==>
                    OtherCounts(s, i) || i.clock.decide - first.value >= s.cfg.cpuDuration * SECOND)
            else if OtherCounts(s, i) && Permitted(s.cfg, i.reading.value) then
              first == s.cpuTracker.first && d == Activate
            else first == None && d == Maintain
  {
    hide RAMExceeded, ObserveIO, EnoughCores, LoadAllowed;
  }

  lemma DeactivateClearsTimer(s: State, i: CycleInput)
    requires Evaluated(i) && CycleDecision(s, i).0 == Deactivate
    ensures CycleDecision(s, i).1.cpuTracker == ZeroTracker
  {
  }

  /** Another cycle that calls for limits continues the chain. */
  lemma ChainGrows(cfg: Config, w: bool, es: seq<Event>, j: nat, n: nat)
    requires n < |es| && CalledSince(cfg, w, es, j, n)
    requires EvaluatedAt(es, n) ==>
               CallsForLimits(cfg, Reading(es, n)) || OtherActivation(cfg, w, es, n)
    ensures CalledSince(cfg, w, es, j, n + 1)
  {
  }

  lemma TimerStep(cfg: Config, w: bool, es: seq<Event>, n: nat)
    requires cfg.cpuDuration > 0 && n < |es| && TimerExplained(cfg, w, es, n)
    requires Unforced(es[n]) && !es[n].UpdateConfig?
    ensures TimerExplained(cfg, w, es, n + 1)
  {
    hide RunCycle, CycleDecision, At, CPUExceeded, OtherCounts, Permitted;
    var s := At(Initial(cfg, w), es, n);
    AtNext(Initial(cfg, w), es, n);
    if EvaluatedAt(es, n) {
      CycleIs(s, es[n].input);
      if s.limitsActive {
        if CycleDecision(s, es[n].input).0 == Deactivate {
          DeactivateClearsTimer(s, es[n].input);
        }
        ActivateOnlyWhenInactive(s, es[n].input);
      } else {
        TimerCycle(cfg, w, es, n);
      }
    } else {
      if es[n].Cycle? {
        IdleCycle(s, es[n].input);
      }
      if s.cpuTracker.first.Some? && !s.limitsActive {
        var j: nat :| CalledSince(cfg, w, es, j, n) && es[j].input.clock.decide == s.cpuTracker.first.value;
        ChainGrows(cfg, w, es, j, n);
      }
    }
  }

  lemma TimerCycle(cfg: Config, w: bool, es: seq<Event>, n: nat)
    requires cfg.cpuDuration > 0 && n < |es| && TimerExplained(cfg, w, es, n)
    requires EvaluatedAt(es, n) && !At(Initial(cfg, w), es, n).limitsActive
    ensures var first := CycleDecision(At(Initial(cfg, w), es, n), es[n].input).1.cpuTracker.first;
            first.Some? ==> exists j: nat :: CalledSince(cfg, w, es, j, n + 1) && es[j].input.clock.decide == first.value
  {
    hide CycleDecision, At, CPUExceeded, OtherCounts, Permitted;
    var s := At(Initial(cfg, w), es, n);
    TimerDecision(s, es[n].input);
    var first := CycleDecision(s, es[n].input).1.cpuTracker.first;
    if first.Some? {
      if s.cpuTracker.first.Some? {
        var j: nat :| CalledSince(cfg, w, es, j, n) && es[j].input.clock.decide == s.cpuTracker.first.value;
        ChainGrows(cfg, w, es, j, n);
      } else {
        assert CalledSince(cfg, w, es, n, n + 1);
      }
    }
  }

  lemma {:induction false} TimerIsExplained(cfg: Config, w: bool, es: seq<Event>, n: nat)
    requires cfg.cpuDuration > 0 && n <= |es|
    requires forall e | e in es :: Unforced(e) && !e.UpdateConfig?
    ensures TimerExplained(cfg, w, es, n)
  {
    if n > 0 {
      TimerIsExplained(cfg, w, es, n - 1);
      TimerStep(cfg, w, es, n - 1);
    }
  }

  /** Event `j` lies at least CPU_THRESHOLD_DURATION before cycle `n`. */
  predicate LongBefore(cfg: Config, es: seq<Event>, j: nat, n: nat)
    requires n < |es| && EvaluatedAt(es, n)
  {
    j < n && EvaluatedAt(es, j) && es[n].input.clock.decide - es[j].input.clock.decide >= cfg.cpuDuration * SECOND
  }

  /** The time window as documented: CPU over its threshold in every evaluated cycle, for long enough. */
  ghost predicate WindowFrom(cfg: Config, es: seq<Event>, j: nat, n: nat)
    requires n < |es| && EvaluatedAt(es, n)
  {
    LongBefore(cfg, es, j, n) && HighSince(cfg, es, j, n + 1)
  }

  /** From event `p` up to event `n`, no activation found the CPU low. */
  ghost predicate NoOtherActivation(cfg: Config, w: bool, es: seq<Event>, p: nat, n: nat)
    requires n <= |es|
  {
    forall k: nat | p <= k < n && ActivatesAt(Initial(cfg, w), es, k) :: CPUExceeded(cfg, Reading(es, k))
  }

  /** The timer of an activation that only the CPU justifies is old enough. */
  lemma ActivationIsCalled(cfg: Config, w: bool, es: seq<Event>, n: nat) returns (j: nat)
    requires cfg.cpuDuration > 0 && ActivatesAt(Initial(cfg, w), es, n) && !OtherCountsAt(Initial(cfg, w), es, n)
    requires forall e | e in es :: Unforced(e) && !e.UpdateConfig?
    ensures LongBefore(cfg, es, j, n) && CalledSince(cfg, w, es, j, n + 1) && CallsForLimits(cfg, Reading(es, n))
  {
    hide CycleDecision, At, CPUExceeded, OtherCounts, Permitted;
    TimerIsExplained(cfg, w, es, n);
    var s := At(Initial(cfg, w), es, n);
    ActivateOnlyWhenInactive(s, es[n].input);
    TimerDecision(s, es[n].input);
    j :| CalledSince(cfg, w, es, j, n) && es[j].input.clock.decide == s.cpuTracker.first.value;
    ChainGrows(cfg, w, es, j, n);
  }

  lemma HighFrom(cfg: Config, w: bool, es: seq<Event>, j: nat, p: nat, n: nat)
    requires n < |es| && EvaluatedAt(es, n) && CalledSince(cfg, w, es, j, n + 1) && CallsForLimits(cfg, Reading(es, n))
    requires j <= p < n && EvaluatedAt(es, p) && NoOtherActivation(cfg, w, es, p, n)
    ensures HighSince(cfg, es, p, n + 1)
  {
    hide ActivatesAt, OtherCountsAt, CPUExceeded, Permitted;
    forall k: nat | p <= k < n + 1 && EvaluatedAt(es, k) ensures CallsForLimits(cfg, Reading(es, k)) {
      assert k == n || CallsForLimits(cfg, Reading(es, k)) || OtherActivation(cfg, w, es, k);
    }
  }

  lemma WindowHasNoOther(cfg: Config, w: bool, es: seq<Event>, q: nat, n: nat)
    requires n < |es| && EvaluatedAt(es, n) && WindowFrom(cfg, es, q, n)
    ensures NoOtherActivation(cfg, w, es, q, n)
  {
    hide CycleDecision, At;
  }

  /**
    An activation that only the CPU justifies: since some cycle at least CPU_THRESHOLD_DURATION
    back, every evaluated cycle called for limits. The CPU was over its threshold for a whole
    window exactly if, since some cycle that far back, no activation found the CPU low. Such an
    activation came to nothing, for limits are still inactive.
  */
  lemma ActivationWindowIff(cfg: Config, w: bool, es: seq<Event>, n: nat)
    requires cfg.cpuDuration > 0 && ActivatesAt(Initial(cfg, w), es, n) && !OtherCountsAt(Initial(cfg, w), es, n)
    requires forall e | e in es :: Unforced(e) && !e.UpdateConfig?
    ensures exists j: nat :: LongBefore(cfg, es, j, n) && CalledSince(cfg, w, es, j, n + 1)
    ensures (exists j: nat :: WindowFrom(cfg, es, j, n))
       <==> exists p: nat :: LongBefore(cfg, es, p, n) && NoOtherActivation(cfg, w, es, p, n)
  {
    var j := ActivationIsCalled(cfg, w, es, n);
    hide ActivatesAt, CalledSince, OtherCountsAt, CPUExceeded, Permitted;
    if q: nat :| WindowFrom(cfg, es, q, n) {
      WindowHasNoOther(cfg, w, es, q, n);
    }
    if p: nat :| LongBefore(cfg, es, p, n) && NoOtherActivation(cfg, w, es, p, n) {
      var q := if p < j then j else p;
      HighFrom(cfg, w, es, j, q, n);
      assert WindowFrom(cfg, es, q, n);
    }
  }

  /**
    So if no activation ever finds the CPU low, one that only the CPU justifies has its window,
    and a timer left over from an earlier activation is never read again.
  */
  lemma ActivationNeedsWindow(cfg: Config, w: bool, es: seq<Event>, n: nat)
    requires cfg.cpuDuration > 0 && ActivatesAt(Initial(cfg, w), es, n) && !OtherCountsAt(Initial(cfg, w), es, n)
    requires forall e | e in es :: Unforced(e) && !e.UpdateConfig?
    requires NoOtherActivation(cfg, w, es, 0, n)
    ensures exists j: nat :: WindowFrom(cfg, es, j, n)
  {
    ActivationWindowIff(cfg, w, es, n);
    hide ActivatesAt, CalledSince, OtherCountsAt, CPUExceeded, WindowFrom;
    var j: nat :| LongBefore(cfg, es, j, n) && CalledSince(cfg, w, es, j, n + 1);
    assert NoOtherActivation(cfg, w, es, j, n);
  }

  /** With RAM and I/O limiting off this is so in every run, for every activation. */
  lemma OnlyCPU(cfg: Config, w: bool, es: seq<Event>, n: nat)
    requires cfg.cpuDuration > 0 && !cfg.ramEnabled && !cfg.ioEnabled && ActivatesAt(Initial(cfg, w), es, n)
    requires forall e | e in es :: Unforced(e) && !e.UpdateConfig?
    ensures !OtherCountsAt(Initial(cfg, w), es, n) && NoOtherActivation(cfg, w, es, 0, n)
    ensures exists j: nat :: WindowFrom(cfg, es, j, n)
  {
    forall k: nat | ActivatesAt(Initial(cfg, w), es, k)
      ensures !OtherCountsAt(Initial(cfg, w), es, k) && CPUExceeded(cfg, Reading(es, k))
    {
      hide At, CycleDecision;
      TimerIsExplained(cfg, w, es, k);
      ActivateOnlyWhenInactive(At(Initial(cfg, w), es, k), es[k].input);
      TimerDecision(At(Initial(cfg, w), es, k), es[k].input);
    }
    hide ActivatesAt, OtherCountsAt, CPUExceeded, WindowFrom;
    ActivationNeedsWindow(cfg, w, es, n);
  }

  // ------------------------------------------------------- a stale timer

  const SomeUser := Uid(1000)

  /** The one user is at the CPU threshold; and it holds all of the memory but uses no CPU. */
  function RAMFull(cfg: Config): Metrics {
    Metrics(cfg.minSystemCores + 1, 0.0, 1024 * 1048576, 0, 1024.0, false, map[SomeUser := 0.0], {SomeUser})
  }

  /** A cycle with that reading, which cannot get a shared cgroup. */
  function Observing(m: Metrics, now: int): CycleInput {
    CycleInput(false, Some(m), m.eligible, m.userCPU, NoFailures({}).(sharedBase := None), Clock(now, now, now))
  }

  /** A cycle that ends as it was decided: nothing to maintain, or no shared cgroup to be had. */
  lemma DecisionOnly(s: State, i: CycleInput)
    requires Evaluated(i) && !s.limitsActive && s.activeUsers == {} && s.boostedAt == map[]
    requires CycleDecision(s, i).0 == Maintain
          || (CycleDecision(s, i).0 == Activate && s.sharedPath == "" && i.effects.sharedBase.None?)
    ensures RunCycle(s, i) == CycleDecision(s, i).1
  {
    DecideKeepsTables(s, i.reading.value, i.limited, i.ema, i.clock.decide);
    var (d, decided) := CycleDecision(s, i);
    hide Decide;
    assert decided.activeUsers * i.reading.value.userCPU.Keys == {};
    if d == Maintain {
      NothingToRevert(decided, i.effects.weightFails, i.clock.revert);
    }
  }

  lemma NothingToRevert(s: State, fails: set<Uid>, now: int)
    requires s.boostedAt == map[]
    ensures RevertBoosts(s, fails, now) == s
  {
    assert ExpiredBoosts(s, now) == {};
  }

  /** Two peaks, and an activation for RAM in between while the CPU is idle. */
  function StaleRun(cfg: Config): seq<Event> {
    [Cycle(Observing(Hot(cfg, SomeUser), 0)), Cycle(Observing(RAMFull(cfg), 1)),
     Cycle(Observing(Hot(cfg, SomeUser), cfg.cpuDuration * SECOND))]
  }

  /**
    The first peak starts the timer, the activation for RAM fails, and the second peak
    activates limits at once, although no window leads up to it.
  */
  lemma StaleTimer(cfg: Config, w: bool)
    requires ValidThresholds(cfg) && cfg.cpuDuration > 0 && cfg.ramEnabled
    ensures var s, es := Initial(cfg, w), StaleRun(cfg);
            && Possible(w, es) && ActivatesAt(s, es, 2) && !OtherCountsAt(s, es, 2)
            && forall j: nat :: !WindowFrom(cfg, es, j, 2)
  {
    StaleRunIsPossible(cfg, w);
    PeakAndFull(cfg);
    var es := StaleRun(cfg);
    assert EvaluatedAt(es, 0) && EvaluatedAt(es, 1) && EvaluatedAt(es, 2);
    hide Possible, RunCycle, CPUExceeded, RAMExceeded, IOExceeded, Permitted, Hot, RAMFull, CycleDecision, Run;
    TimerSurvives(Initial(cfg, w), es[0].input, es[1].input, es[2].input);
    assert es == [Cycle(es[0].input), Cycle(es[1].input), Cycle(es[2].input)];
    forall j: nat ensures !WindowFrom(cfg, es, j, 2) {
      assert !CallsForLimits(cfg, Reading(es, 1));
    }
  }

  lemma StaleRunIsPossible(cfg: Config, w: bool)
    requires ValidThresholds(cfg) && cfg.cpuDuration > 0
    ensures Possible(w, StaleRun(cfg))
  {
    CollectedOne(Hot(cfg, SomeUser), SomeUser);
    CollectedOne(RAMFull(cfg), SomeUser);
    hide Collected;
  }

  lemma TimerSurvives(s: State, i0: CycleInput, i1: CycleInput, i2: CycleInput)
    requires s == Initial(s.cfg, s.hasWatcher) && s.cfg.cpuDuration > 0 && Evaluated(i0) && Evaluated(i1) && Evaluated(i2)
    requires CallsForLimits(s.cfg, i0.reading.value) && Quiet(s.cfg, i0.reading.value)
    requires !CPUExceeded(s.cfg, i1.reading.value) && RAMExceeded(s.cfg, i1.reading.value)
    requires Permitted(s.cfg, i1.reading.value) && i1.effects.sharedBase.None?
    requires CallsForLimits(s.cfg, i2.reading.value) && Quiet(s.cfg, i2.reading.value)
    requires i2.clock.decide - i0.clock.decide >= s.cfg.cpuDuration * SECOND
    requires i0.effects.sharedBase.None?
    ensures ActivatesAt(s, [Cycle(i0), Cycle(i1), Cycle(i2)], 2)
    ensures !OtherCountsAt(s, [Cycle(i0), Cycle(i1), Cycle(i2)], 2)
  {
    hide RunCycle, CycleDecision, CPUExceeded, RAMExceeded, Quiet, Permitted;
    PeakDecision(s, i0);
    DecisionOnly(s, i0);
    var s1 := RunCycle(s, i0);
    FullDecision(s1, i1);
    DecisionOnly(s1, i1);
    PeakDecision(RunCycle(s1, i1), i2);
    var es := [Cycle(i0), Cycle(i1), Cycle(i2)];
    AtStart(s, es);
    AtNext(s, es, 0);
    AtNext(s, es, 1);
    hide At, OtherCounts;
  }

  lemma PeakAndFull(cfg: Config)
    requires ValidThresholds(cfg) && cfg.ramEnabled
    ensures CallsForLimits(cfg, Hot(cfg, SomeUser)) && Quiet(cfg, Hot(cfg, SomeUser))
    ensures !CPUExceeded(cfg, RAMFull(cfg)) && RAMExceeded(cfg, RAMFull(cfg)) && Permitted(cfg, RAMFull(cfg))
  {
    assert RAMPercent(Hot(cfg, SomeUser)) == 0.0 && RAMPercent(RAMFull(cfg)) == 100.0;
    NoIOIsBelow(cfg, Hot(cfg, SomeUser));
  }

  /** Neither RAM nor I/O is exceeded. */
  predicate Quiet(cfg: Config, m: Metrics) { !RAMExceeded(cfg, m) && !IOExceeded(cfg, m) }

  /** The decision for a CPU peak, and what it leaves. */
  lemma PeakDecision(s: State, i: CycleInput)
    requires Evaluated(i) && !s.limitsActive && s.cfg.cpuDuration > 0
    requires CallsForLimits(s.cfg, i.reading.value) && Quiet(s.cfg, i.reading.value)
    ensures !OtherCounts(s, i)
    ensures var (d, decided) := CycleDecision(s, i);
            var first := if s.cpuTracker.first.None? then i.clock.decide else s.cpuTracker.first.value;
            && d == (if i.clock.decide - first >= s.cfg.cpuDuration * SECOND then Activate else Maintain)
            && decided == s.(cpuTracker := decided.cpuTracker, ioTracker := decided.ioTracker)
            && decided.cpuTracker.first == Some(first)
  {
    hide RAMExceeded, IOExceeded, EnoughCores, LoadAllowed;
  }

  /** The decision for RAM alone, which does not look at the timer. */
  lemma FullDecision(s: State, i: CycleInput)
    requires Evaluated(i) && !s.limitsActive && !CPUExceeded(s.cfg, i.reading.value)
    requires RAMExceeded(s.cfg, i.reading.value) && Permitted(s.cfg, i.reading.value)
    ensures CycleDecision(s, i).0 == Activate && CycleDecision(s, i).1 == s.(ioTracker := CycleDecision(s, i).1.ioTracker)
  {
    hide CPUExceeded, RAMExceeded, IOExceeded, EnoughCores, LoadAllowed;
  }

  // ------------------------------------------------------- I/O alone

  predicate OnlyIO(cfg: Config, e: Event) {
    && Unforced(e) && !e.UpdateConfig?
    && (e.Cycle? && e.input.reading.Some? ==>
          !CPUExceeded(cfg, e.input.reading.value) && !RAMExceeded(cfg, e.input.reading.value))
  }

  /**
    With IO_THRESHOLD_DURATION set, I/O pressure alone never activates limits, however
    long it lasts: the first waiting cycle counts as "nothing exceeded" and resets the
    timer it has just started.
  */
  lemma {:induction false} IOAloneNeverActivates(cfg: Config, w: bool, es: seq<Event>)
    requires cfg.ioDuration > 0
    requires forall e | e in es :: OnlyIO(cfg, e)
    ensures var s := Run(Initial(cfg, w), es);
            !s.limitsActive && s.cfg == cfg && s.ioTracker == ZeroTracker && s.activeUsers == {}
  {
    hide RunCycle, CycleDecision;
    RunIsConsistent(cfg, w, es);
    if es != [] {
      var before, e := es[..|es| - 1], es[|es| - 1];
      assert e in es && forall x | x in before :: x in es;
      IOAloneNeverActivates(cfg, w, before);
      var s := Run(Initial(cfg, w), before);
      if e.Cycle? && Evaluated(e.input) {
        OnlyIODecision(s, e.input);
        CycleIs(s, e.input);
      } else if e.Cycle? {
        IdleCycle(s, e.input);
      }
    }
  }

  lemma OnlyIODecision(s: State, i: CycleInput)
    requires Evaluated(i) && s.cfg.ioDuration > 0 && s.ioTracker == ZeroTracker && !s.limitsActive
    requires !CPUExceeded(s.cfg, i.reading.value) && !RAMExceeded(s.cfg, i.reading.value)
    ensures CycleDecision(s, i).0 == Maintain && CycleDecision(s, i).1.ioTracker == ZeroTracker
  {
  }

  /** What I/O needs besides pressure. */
  predicate IOCalls(cfg: Config, m: Metrics) { IOExceeded(cfg, m) && EnoughCores(cfg, m) && LoadAllowed(cfg, m) }

  /** With nothing else exceeded, I/O decides alone exactly if no duration is configured. */
  lemma IOAloneDecidesIff(s: State, i: CycleInput)
    requires Evaluated(i) && !s.limitsActive && (s.cfg.ioDuration > 0 ==> s.ioTracker == ZeroTracker)
    requires !CPUExceeded(s.cfg, i.reading.value) && !RAMExceeded(s.cfg, i.reading.value)
    ensures CycleDecision(s, i).0 == Activate <==> s.cfg.ioDuration <= 0 && IOCalls(s.cfg, i.reading.value)
  {
    hide IOExceeded, EnoughCores, LoadAllowed;
  }

  /** Without forced operations limits come from a decision only. */
  lemma {:induction false} ActiveSinceDecision(cfg: Config, w: bool, es: seq<Event>, n: nat)
    requires n <= |es| && forall e | e in es :: Unforced(e) && !e.UpdateConfig?
    ensures At(Initial(cfg, w), es, n).cfg == cfg
    ensures At(Initial(cfg, w), es, n).limitsActive ==> exists m: nat :: m < n && ActivatesAt(Initial(cfg, w), es, m)
  {
    var s := Initial(cfg, w);
    hide RunCycle, CycleDecision, At;
    if n == 0 {
      AtStart(s, es);
    } else {
      ActiveSinceDecision(cfg, w, es, n - 1);
      AtNext(s, es, n - 1);
      var e := es[n - 1];
      assert e in es;
      if e.Cycle? && Evaluated(e.input) {
        CycleIs(At(s, es, n - 1), e.input);
        assert ActivatesAt(s, es, n - 1) <==> CycleDecision(At(s, es, n - 1), e.input).0 == Activate;
      } else if e.Cycle? {
        IdleCycle(At(s, es, n - 1), e.input);
      }
    }
  }

  /**
    In a run in which neither CPU nor RAM is ever exceeded, some cycle decides to activate
    limits if and only if IO_THRESHOLD_DURATION is not set and some cycle that is evaluated
    finds I/O exceeded with cores to spare and load allowed.
  */
  lemma IOAloneActivatesIff(cfg: Config, w: bool, es: seq<Event>)
    requires forall e | e in es :: OnlyIO(cfg, e)
    ensures (exists n: nat :: ActivatesAt(Initial(cfg, w), es, n))
       <==> cfg.ioDuration <= 0 && exists n: nat :: n < |es| && EvaluatedAt(es, n) && IOCalls(cfg, Reading(es, n))
  {
    var s := Initial(cfg, w);
    hide CycleDecision, At, IOCalls, IOExceeded;
    if n: nat :| ActivatesAt(s, es, n) {
      ActiveSinceDecision(cfg, w, es, n);
      ActivateOnlyWhenInactive(At(s, es, n), es[n].input);
      IOAloneAt(cfg, w, es, n);
      assert EvaluatedAt(es, n) && IOCalls(cfg, Reading(es, n));
    }
    if cfg.ioDuration <= 0 {
      if n: nat :| n < |es| && EvaluatedAt(es, n) && IOCalls(cfg, Reading(es, n)) {
        ActiveSinceDecision(cfg, w, es, n);
        if !At(s, es, n).limitsActive {
          IOAloneAt(cfg, w, es, n);
          assert ActivatesAt(s, es, n);
        }
      }
    }
  }

  lemma IOAloneAt(cfg: Config, w: bool, es: seq<Event>, n: nat)
    requires n < |es| && EvaluatedAt(es, n) && !At(Initial(cfg, w), es, n).limitsActive
    requires At(Initial(cfg, w), es, n).cfg == cfg && forall e | e in es :: OnlyIO(cfg, e)
    ensures CycleDecision(At(Initial(cfg, w), es, n), es[n].input).0 == Activate
       <==> cfg.ioDuration <= 0 && IOCalls(cfg, Reading(es, n))
  {
    hide CycleDecision, IOCalls, IOExceeded, Run;
    assert es[n] in es;
    if cfg.ioDuration > 0 {
      forall e | e in es[..n] ensures OnlyIO(cfg, e) {
        assert e in es;
      }
      IOAloneNeverActivates(cfg, w, es[..n]);
    }
    IOAloneDecidesIff(At(Initial(cfg, w), es, n), es[n].input);
  }

  /** A reading in which one user writes that many bytes per second, and nothing else is used. */
  function Writing(cfg: Config, rate: nat): Metrics {
    Metrics(cfg.minSystemCores + 1, 0.0, 0, rate, 1024.0, false, map[SomeUser := 0.0], {SomeUser})
  }

  /** Cycles one second apart; the first finds no earlier values, all others ten times the limit of 100 bytes per second. */
  function HeavyCycle(cfg: Config, n: nat): CycleInput {
    var m := Writing(cfg, if n == 0 then 0 else 1000);
    CycleInput(false, Some(m), m.eligible, m.userCPU, NoFailures({}), Clock(n * SECOND, n * SECOND, n * SECOND))
  }

  function HeavyRun(cfg: Config, k: nat): seq<Event> { seq(k, (n: nat) => Cycle(HeavyCycle(cfg, n))) }

  /** However long I/O stays at ten times its limit, a configured duration keeps limits away. */
  lemma SustainedIO(cfg: Config, w: bool, k: nat)
    requires ValidThresholds(cfg) && cfg.ioEnabled && cfg.ioWriteLimit == Some(100) && cfg.ioDuration > 0
    ensures var es := HeavyRun(cfg, k);
            && Possible(w, es) && (forall n: nat | 0 < n < k :: EvaluatedAt(es, n) && IOCalls(cfg, Reading(es, n)))
            && !Run(Initial(cfg, w), es).limitsActive
  {
    var es := HeavyRun(cfg, k);
    HeavyIOCalls(cfg);
    HeavyRunIsPossible(cfg, w, k);
    forall e | e in es ensures OnlyIO(cfg, e) {
      var n: nat :| n < k && e == Cycle(HeavyCycle(cfg, n));
      IdleOtherwise(cfg, if n == 0 then 0 else 1000);
    }
    hide IOCalls, Run, Possible;
    IOAloneNeverActivates(cfg, w, es);
  }

  lemma HeavyRunIsPossible(cfg: Config, w: bool, k: nat)
    ensures Possible(w, HeavyRun(cfg, k))
  {
    CollectedOne(Writing(cfg, 0), SomeUser);
    CollectedOne(Writing(cfg, 1000), SomeUser);
    hide Collected;
    var es := HeavyRun(cfg, k);
    forall n | 0 <= n < |es| && ReadingOf(es[n]).value.limitedIOBytes != 0
      ensures exists j :: 0 <= j < n && ReadingOf(es[j]).Some?
    {
      assert ReadingOf(es[0]).Some?;
    }
  }

  lemma IdleOtherwise(cfg: Config, rate: nat)
    requires ValidThresholds(cfg)
    ensures !CPUExceeded(cfg, Writing(cfg, rate)) && !RAMExceeded(cfg, Writing(cfg, rate))
  {
    if cfg.ramEnabled {
      assert RAMPercent(Writing(cfg, rate)) == 0.0;
    }
  }

  lemma HeavyIOCalls(cfg: Config)
    requires ValidThresholds(cfg) && cfg.ioEnabled && cfg.ioWriteLimit == Some(100)
    ensures IOCalls(cfg, Writing(cfg, 1000))
  {
    var m := Writing(cfg, 1000);
    assert |m.eligible| == 1 && TotalWriteLimit(cfg, m) == 100;
    assert IOPercent(cfg, m) == 1000.0;
  }
}
