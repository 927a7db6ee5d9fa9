/** Properties of whole runs of the manager: when limits come, how long they stay, when they go. */
module ControlTiming {
  import opened Common
  import opened ControlDecisions
  import opened ControlModel
  import opened ControlInvariants

  /** Event number `k` is a cycle that reaches `makeDecision`. */
  predicate EvaluatedAt(es: seq<Event>, k: nat)
    requires k < |es|
  {
    es[k].Cycle? && Evaluated(es[k].input)
  }

  function Reading(es: seq<Event>, k: nat): Metrics
    requires k < |es| && EvaluatedAt(es, k)
  {
    es[k].input.reading.value
  }

  predicate Unforced(e: Event) { !e.ForceActivate? && !e.ForceDeactivate? }

  /** The threshold rules of `validateConfig`. */
  predicate ValidThresholds(cfg: Config) {
    && 1 <= cfg.cpuRelease < cfg.cpuThreshold <= 100
    && (cfg.ramEnabled ==> 1 <= cfg.ramRelease < cfg.ramThreshold <= 100)
    && (cfg.ioEnabled ==> 1 <= cfg.ioRelease < cfg.ioThreshold <= 100)
    && cfg.cpuDuration >= 0
  }

  /** One pair of thresholds, as `validateConfig` checks the CPU, RAM and I/O pairs. */
  method CheckPair(threshold: int, release: int, name: string) returns (errors: seq<string>)
    ensures errors == [] <==> 1 <= release < threshold <= 100
  {
    errors := [];
    if threshold < 1 || threshold > 100 {
      errors := errors + [name + "_THRESHOLD must be between 1 and 100"];
    }
    if release < 1 || release > 100 {
      errors := errors + [name + "_RELEASE_THRESHOLD must be between 1 and 100"];
    }
    if threshold <= release {
      errors := errors + [name + "_THRESHOLD must be greater than " + name + "_RELEASE_THRESHOLD"];
    }
  }

  /** The part of `validateConfig` that concerns thresholds finds nothing exactly in valid configurations. */
  method CheckThresholds(cfg: Config) returns (errors: seq<string>)
    ensures errors == [] <==> ValidThresholds(cfg)
  {
    errors := CheckPair(cfg.cpuThreshold, cfg.cpuRelease, "CPU");
    if cfg.cpuDuration < 0 {
      errors := errors + ["CPU_THRESHOLD_DURATION cannot be negative"];
    }
    if cfg.ramEnabled {
      var more := CheckPair(cfg.ramThreshold, cfg.ramRelease, "RAM");
      errors := errors + more;
    }
    if cfg.ioEnabled {
      var more := CheckPair(cfg.ioThreshold, cfg.ioRelease, "IO");
      errors := errors + more;
    }
  }

  // ------------------------------------------------------- no flapping

  /** For positive CPU thresholds the order is also necessary: only then no reading calls for both. */
  lemma CPUFlapsIff(cfg: Config)
    ensures (exists m | Collected(m) :: CPUExceeded(cfg, m) && AllBelow(cfg, m))
       <==> cfg.cpuThreshold < cfg.cpuRelease && 0 < cfg.cpuRelease
  {
    if cfg.cpuThreshold < cfg.cpuRelease && 0 < cfg.cpuRelease {
      var cpu := if cfg.cpuThreshold < 0 then 0.0 else cfg.cpuThreshold as real;
      var m := Metrics(1, cpu, 0, 0, 0.0, false, map[Uid(1000) := cpu], {Uid(1000)});
      CollectedOne(m, Uid(1000));
      assert CPUExceeded(cfg, m);
      NoIOIsBelow(cfg, m);
      assert AllBelow(cfg, m);
    }
    forall m | Collected(m) && CPUExceeded(cfg, m) && AllBelow(cfg, m) ensures 0 < cfg.cpuRelease {
      UsedIsPositive(m.userCPU, m.eligible);
    }
  }

  lemma NoIOIsBelow(cfg: Config, m: Metrics)
    requires m.limitedIOBytes == 0
    ensures IOBelow(cfg, m) && IOPercent(cfg, m) == 0.0 && !IOExceeded(cfg, m)
  {
    hide TotalWriteLimit;
  }

  lemma {:induction false} UsedIsPositive(userCPU: map<Uid, real>, users: set<Uid>)
    requires forall uid | uid in userCPU :: userCPU[uid] >= 0.0
    ensures UsedCPU(userCPU, users) >= 0.0
  {
    if users != {} {
      var u :| u in users;
      FoldAnyOrder(users, 0.0, (t: real, v: Uid) => t + Lookup(userCPU, v, 0.0), u);
      UsedIsPositive(userCPU, users - {u});
    }
  }

  /** No reading calls for activation and for release at once. */
  lemma NoReadingFlaps(cfg: Config, m: Metrics)
    requires ValidThresholds(cfg)
    requires CPUExceeded(cfg, m) || RAMExceeded(cfg, m) || IOExceeded(cfg, m)
    ensures !AllBelow(cfg, m)
  {
  }

  /** A step that moves the start of the active period moves it to its own time. */
  lemma StepApplies(s: State, e: Event)
    ensures var after := Step(s, e);
            after.appliedAt == s.appliedAt || after.appliedAt.None?
            || (e.Cycle? && after.appliedAt.value == e.input.clock.apply)
            || (e.ForceActivate? && after.appliedAt.value == e.now)
  {
    hide RunCycle, CycleDecision, Execute, ActivateLimits;
    match e {
      case Cycle(i) =>
        if Evaluated(i) {
          CycleIs(s, i);
        } else {
          IdleCycle(s, i);
        }
      case ForceActivate(r, fx, now) =>
        if r.Some? {
          ActivateOnlyAdds(s, r.value, fx, now);
        }
      case _ =>
    }
  }

  /** CycleSummary and ExecuteSummary put together. */
  lemma CycleIs(s: State, i: CycleInput)
    requires Evaluated(i)
    ensures var (d, decided) := CycleDecision(s, i);
            var after := RunCycle(s, i);
            && after.cfg == s.cfg && after.hasWatcher == s.hasWatcher
            && after.cpuTracker == decided.cpuTracker && after.ioTracker == decided.ioTracker
            && after.under == (if d == Deactivate then decided.under - s.activeUsers else decided.under)
            && (if d == Deactivate then after.appliedAt == None else after.appliedAt in {s.appliedAt, Some(i.clock.apply)})
            && (d == Deactivate ==> s.limitsActive && !after.limitsActive)
            && (d == Maintain ==> after.limitsActive == s.limitsActive)
            && after.activeUsers <= s.activeUsers + i.reading.value.eligible
  {
    hide RunCycle, CycleDecision, Execute;
    CycleSummary(s, i);
    var (d, decided) := CycleDecision(s, i);
    ExecuteSummary(decided, d, i.reading.value, i.effects, i.clock.apply);
  }

  /** The start of an active period never lies after a later event. */
  lemma {:induction false} AppliedBefore(s: State, es: seq<Event>, n: nat, k: nat)
    requires Timely(es) && n <= k < |es| && Started(es[k]).Some?
    requires s.appliedAt.None? && At(s, es, n).appliedAt.Some?
    ensures At(s, es, n).appliedAt.value <= Started(es[k]).value
  {
    hide Step, At;
    if n == 0 {
      AtStart(s, es);
    } else {
      AtNext(s, es, n - 1);
      StepApplies(At(s, es, n - 1), es[n - 1]);
      if At(s, es, n).appliedAt == At(s, es, n - 1).appliedAt {
        AppliedBefore(s, es, n - 1, k);
      }
    }
  }

  lemma AtStart(s: State, es: seq<Event>)
    ensures At(s, es, 0) == s
  {
  }

  /** While limits stay active, the time they were last applied only moves forward. */
  lemma {:induction false} AppliedOnlyGrows(s: State, es: seq<Event>, n: nat, i: nat)
    requires Timely(es) && n <= i <= |es| && s.appliedAt.None?
    requires forall k: nat | n <= k <= i :: At(s, es, k).appliedAt.Some?
    ensures At(s, es, n).appliedAt.value <= At(s, es, i).appliedAt.value
  {
    hide Step, At;
    if n < i {
      AppliedOnlyGrows(s, es, n, i - 1);
      AtNext(s, es, i - 1);
      StepApplies(At(s, es, i - 1), es[i - 1]);
      if At(s, es, i).appliedAt != At(s, es, i - 1).appliedAt {
        AppliedBefore(s, es, i - 1, i - 1);
      }
    }
  }

  /**
    Every active period lasts at least MIN_ACTIVE_TIME after its start and after every
    later addition of a user. Event `j` set the time, event `i` ended the period.
  */
  lemma ActivePeriodsLast(cfg: Config, w: bool, es: seq<Event>, j: nat, i: nat)
    requires Timely(es) && j < i < |es| && Unforced(es[i])
    requires forall k: nat | j < k <= i :: At(Initial(cfg, w), es, k).limitsActive
    requires !At(Initial(cfg, w), es, i + 1).limitsActive
    ensures At(Initial(cfg, w), es, j + 1).appliedAt.Some? && EvaluatedAt(es, i)
    ensures var s := At(Initial(cfg, w), es, i);
            es[i].input.clock.decide - At(Initial(cfg, w), es, j + 1).appliedAt.value >= s.cfg.minActiveTime * SECOND
  {
    var start := Initial(cfg, w);
    forall k: nat | j < k <= i ensures At(start, es, k).appliedAt.Some? {
      RunIsConsistent(cfg, w, es[..k]);
    }
    AppliedOnlyGrows(start, es, j + 1, i);
    AtNext(start, es, i);
    OnlyDeactivationEnds(At(start, es, i), es[i]);
  }

  lemma OnlyDeactivationEnds(s: State, e: Event)
    requires s.limitsActive && !Step(s, e).limitsActive && Unforced(e)
    ensures e.Cycle? && Evaluated(e.input) && CycleDecision(s, e.input).0 == Deactivate && ReleaseDue(s, e.input)
    ensures !Waiting(s, e.input.clock.decide)
  {
    hide RunCycle, CycleDecision, ActivateLimits, ReleaseDue;
    if e.Cycle? {
      if Evaluated(e.input) {
        CycleIs(s, e.input);
        ActivateOnlyWhenInactive(s, e.input);
        DeactivateOnlyWhenDue(s, e.input);
        DeactivatesIff(s, e.input);
      } else {
        IdleCycle(s, e.input);
      }
    }
  }

  /** So without force a period ends with the first cycle that finds everything calm, and with no other event. */
  lemma PeriodEndsIff(s: State, e: Event)
    requires s.limitsActive && Unforced(e)
    ensures !Step(s, e).limitsActive <==> e.Cycle? && Evaluated(e.input) && ReleaseDue(s, e.input)
  {
    hide ReleaseDue, CycleDecision;
    if !Step(s, e).limitsActive {
      hide RunCycle, ActivateLimits;
      OnlyDeactivationEnds(s, e);
    } else if e.Cycle? && Evaluated(e.input) {
      hide RunCycle, ActivateLimits;
      DeactivatesIff(s, e.input);
      CycleIs(s, e.input);
    }
  }

  /** What keeps an activation from coming to nothing. */
  predicate CanStart(s: State, i: CycleInput)
    requires Evaluated(i)
  {
    && (s.sharedPath != "" || (i.effects.sharedBase.Some? && i.effects.quotaOk))
    && exists uid | uid in i.reading.value.eligible :: uid !in i.effects.createFails
  }

  lemma ActivationStarts(s: State, m: Metrics, effects: Effects, now: int)
    requires s.activeUsers == {} && !s.limitsActive
    ensures ActivateLimits(s, m, effects, now).1.limitsActive
       <==> && (s.sharedPath != "" || (effects.sharedBase.Some? && effects.quotaOk))
            && exists uid | uid in m.eligible :: uid !in effects.createFails
  {
    hide Watch;
    assert s.activeUsers * m.userCPU.Keys == {};
    assert (m.eligible - {} - effects.createFails) == set uid | uid in m.eligible && uid !in effects.createFails;
  }

  /** And one starts with the first cycle that finds a resource over its threshold, and somebody to limit. */
  lemma PeriodStartsIff(s: State, e: Event)
    requires Consistent(s) && !s.limitsActive && Unforced(e)
    ensures Step(s, e).limitsActive
       <==> && e.Cycle? && Evaluated(e.input) && OverThreshold(s, e.input) && Spare(s.cfg, e.input.reading.value)
            && CanStart(s, e.input)
  {
    hide OverThreshold, Spare, CycleDecision, RunCycle, ActivateLimits;
    if e.Cycle? && Evaluated(e.input) {
      var i := e.input;
      ActivatesIff(s, i);
      CycleIs(s, i);
      CycleSummary(s, i);
      ActivationStarts(CycleDecision(s, i).1, i.reading.value, i.effects, i.clock.apply);
    } else if e.Cycle? {
      IdleCycle(s, e.input);
    }
  }

  lemma ActivateOnlyWhenInactive(s: State, i: CycleInput)
    requires Evaluated(i)
    ensures CycleDecision(s, i).0 == Activate ==> !s.limitsActive
  {
    DecideKeepsTables(s, i.reading.value, i.limited, i.ema, i.clock.decide);
  }

  lemma DeactivateOnlyWhenDue(s: State, i: CycleInput)
    requires Evaluated(i)
    ensures CycleDecision(s, i).0 == Deactivate ==> s.limitsActive && !Waiting(s, i.clock.decide)
  {
  }

  // ------------------------------------------------------- stability counters

  /** The cycle takes one sample of every limited user. */
  predicate TakesSamples(s: State, i: CycleInput) {
    Evaluated(i) && s.limitsActive && !Waiting(s, i.clock.decide) && AllBelow(s.cfg, i.reading.value)
  }

  predicate Sampled(i: CycleInput, uid: Uid) { uid in i.limited && uid in i.ema }

  /** A sample: the event that took it, and whether the user's EMA was below the release threshold. */
  datatype Sample = Sample(at: nat, below: bool)

  /** The samples of one user since its counter was last cleared. */
  function Samples(s: State, es: seq<Event>, uid: Uid): seq<Sample>
    decreases |es|, 0
  {
    if es == [] then []
    else
      var before := es[..|es| - 1];
      var seen := Samples(s, before, uid);
      match es[|es| - 1]
      case Cycle(i) =>
        var now := SamplesWith(s, before, i, uid);
        if Evaluated(i) && CycleDecision(Run(s, before), i).0 == Deactivate && uid in Run(s, before).activeUsers
        then [] else now
      case ForceDeactivate(_) => []
      case _ => seen
  }

  /** The samples that `makeDecision` looks at in the cycle that follows the run. */
  function SamplesWith(s: State, es: seq<Event>, i: CycleInput, uid: Uid): seq<Sample>
    decreases |es|, 1
  {
    var seen := Samples(s, es, uid);
    if TakesSamples(Run(s, es), i) && Sampled(i, uid)
    then seen + [Sample(|es|, i.ema[uid] < Run(s, es).cfg.cpuRelease as real)]
    else seen
  }

  function TrailingBelow(ss: seq<Sample>): nat {
    if ss == [] || !ss[|ss| - 1].below then 0 else 1 + TrailingBelow(ss[..|ss| - 1])
  }

  lemma DecideCounts(s: State, i: CycleInput, uid: Uid)
    requires Evaluated(i)
    ensures Lookup(CycleDecision(s, i).1.under, uid, 0)
            == if !TakesSamples(s, i) || !Sampled(i, uid) then Lookup(s.under, uid, 0)
               else if i.ema[uid] < s.cfg.cpuRelease as real then Lookup(s.under, uid, 0) + 1 else 0
    ensures CycleDecision(s, i).0 == Deactivate ==> TakesSamples(s, i)
  {
  }

  lemma ExecuteCounts(s: State, i: CycleInput, uid: Uid)
    requires Evaluated(i)
    ensures var (d, decided) := CycleDecision(s, i);
            Lookup(RunCycle(s, i).under, uid, 0)
            == if d == Deactivate && uid in s.activeUsers then 0 else Lookup(decided.under, uid, 0)
  {
    hide RunCycle, CycleDecision;
    CycleIs(s, i);
  }

  /** Each counter is the length of the trailing run of samples below the release threshold. */
  lemma {:induction false} CountersAreRuns(cfg: Config, w: bool, es: seq<Event>, uid: Uid)
    ensures Lookup(Run(Initial(cfg, w), es).under, uid, 0) == TrailingBelow(Samples(Initial(cfg, w), es, uid))
  {
    hide RunCycle, CycleDecision, ActivateLimits, SamplesWith;
    if es != [] {
      var before, e := es[..|es| - 1], es[|es| - 1];
      var s := Run(Initial(cfg, w), before);
      CountersAreRuns(cfg, w, before, uid);
      match e {
        case Cycle(i) =>
          if Evaluated(i) {
            CounterSeen(cfg, w, before, i, uid);
            ExecuteCounts(s, i, uid);
          } else {
            IdleCycle(s, i);
            NoSample(Initial(cfg, w), before, i, uid);
          }
        case ForceActivate(r, fx, now) =>
          if r.Some? {
            ActivateOnlyAdds(s, r.value, fx, now);
          }
        case _ =>
      }
    }
  }

  lemma NoSample(s: State, es: seq<Event>, i: CycleInput, uid: Uid)
    requires !Evaluated(i)
    ensures SamplesWith(s, es, i, uid) == Samples(s, es, uid)
  {
  }

  lemma CounterSeen(cfg: Config, w: bool, es: seq<Event>, i: CycleInput, uid: Uid)
    requires Evaluated(i)
    requires Lookup(Run(Initial(cfg, w), es).under, uid, 0) == TrailingBelow(Samples(Initial(cfg, w), es, uid))
    ensures Lookup(CycleDecision(Run(Initial(cfg, w), es), i).1.under, uid, 0)
            == TrailingBelow(SamplesWith(Initial(cfg, w), es, i, uid))
  {
    hide CycleDecision;
    var s := Run(Initial(cfg, w), es);
    DecideCounts(s, i, uid);
    var seen, now := Samples(Initial(cfg, w), es, uid), SamplesWith(Initial(cfg, w), es, i, uid);
    if TakesSamples(s, i) && Sampled(i, uid) {
      assert now[..|now| - 1] == seen;
    }
  }

  lemma {:induction false} LongRunsEndBelow(ss: seq<Sample>, n: nat)
    requires TrailingBelow(ss) >= n
    ensures |ss| >= n && forall k | |ss| - n <= k < |ss| :: ss[k].below
  {
    if n > 0 {
      LongRunsEndBelow(ss[..|ss| - 1], n - 1);
    }
  }

  /** The samples are genuine: distinct cycles of the run, in order, each with the user's EMA. */
  ghost predicate Genuine(s: State, es: seq<Event>, ss: seq<Sample>, uid: Uid) {
    && (forall a, b | 0 <= a < b < |ss| :: ss[a].at < ss[b].at)
    && (forall k | 0 <= k < |ss| :: GenuineSample(s, es, ss[k], uid))
  }

  ghost predicate GenuineSample(s: State, es: seq<Event>, x: Sample, uid: Uid) {
    && x.at < |es| && EvaluatedAt(es, x.at)
    && TakesSamples(At(s, es, x.at), es[x.at].input) && Sampled(es[x.at].input, uid)
    && x.below == (es[x.at].input.ema[uid] < At(s, es, x.at).cfg.cpuRelease as real)
  }

  lemma {:induction false} SamplesAreGenuine(s: State, es: seq<Event>, uid: Uid)
    ensures Genuine(s, es, Samples(s, es, uid), uid)
  {
    if es != [] {
      var before, e := es[..|es| - 1], es[|es| - 1];
      SamplesAreGenuine(s, before, uid);
      var seen := Samples(s, before, uid);
      forall k | 0 <= k < |seen| ensures GenuineSample(s, es, seen[k], uid) {
        assert GenuineSample(s, before, seen[k], uid);
        assert es[..seen[k].at] == before[..seen[k].at];
      }
      if e.Cycle? {
        assert es[..|before|] == before;
        assert Genuine(s, es, SamplesWith(s, before, e.input, uid), uid);
      }
    }
  }

  /** The samples are complete: since the first of them, no other cycle of the run took one of this user. */
  ghost predicate Complete(s: State, es: seq<Event>, ss: seq<Sample>, uid: Uid) {
    ss != [] ==> forall k: nat | ss[0].at <= k < |es| && TakenAt(s, es, k, uid) :: ListedAt(ss, k)
  }

  ghost predicate TakenAt(s: State, es: seq<Event>, k: nat, uid: Uid) {
    k < |es| && EvaluatedAt(es, k) && TakesSamples(At(s, es, k), es[k].input) && Sampled(es[k].input, uid)
  }

  ghost predicate ListedAt(ss: seq<Sample>, k: nat) { exists m | 0 <= m < |ss| :: ss[m].at == k }

  lemma CompleteGrows(s: State, es: seq<Event>, e: Event, ss: seq<Sample>, uid: Uid)
    requires Complete(s, es, ss, uid) && !TakenAt(s, es + [e], |es|, uid)
    ensures Complete(s, es + [e], ss, uid)
  {
    forall k: nat | ss != [] && ss[0].at <= k < |es + [e]| && TakenAt(s, es + [e], k, uid) ensures ListedAt(ss, k) {
      assert (es + [e])[..k] == es[..k];
      assert TakenAt(s, es, k, uid);
    }
  }

  lemma CompleteWith(s: State, es: seq<Event>, i: CycleInput, uid: Uid)
    requires Complete(s, es, Samples(s, es, uid), uid)
    ensures Complete(s, es + [Cycle(i)], SamplesWith(s, es, i, uid), uid)
  {
    var all, seen, now := es + [Cycle(i)], Samples(s, es, uid), SamplesWith(s, es, i, uid);
    assert all[..|es|] == es;
    hide Samples, TakesSamples, Sampled, Run;
    if TakesSamples(Run(s, es), i) && Sampled(i, uid) {
      forall k: nat | now[0].at <= k < |all| && TakenAt(s, all, k, uid) ensures ListedAt(now, k) {
        if k == |es| {
          assert now[|seen|].at == k;
        } else {
          assert all[..k] == es[..k];
          assert TakenAt(s, es, k, uid) && ListedAt(seen, k);
          var m :| 0 <= m < |seen| && seen[m].at == k;
          assert now[m].at == k;
        }
      }
    } else {
      CompleteGrows(s, es, Cycle(i), seen, uid);
    }
  }

  lemma {:induction false} SamplesAreComplete(s: State, es: seq<Event>, uid: Uid)
    ensures Complete(s, es, Samples(s, es, uid), uid)
  {
    if es != [] {
      var before, e := es[..|es| - 1], es[|es| - 1];
      assert es == before + [e];
      SamplesAreComplete(s, before, uid);
      hide SamplesWith, TakesSamples, Sampled, Complete, CycleDecision;
      if e.Cycle? {
        CompleteWith(s, before, e.input, uid);
        NoSamplesComplete(s, es, uid);
      } else {
        CompleteGrows(s, before, e, Samples(s, before, uid), uid);
        NoSamplesComplete(s, es, uid);
      }
    }
  }

  lemma NoSamplesComplete(s: State, es: seq<Event>, uid: Uid)
    ensures Complete(s, es, [], uid)
  {
  }

  lemma DeactivateIsStable(s: State, i: CycleInput, uid: Uid)
    requires Evaluated(i) && uid in i.limited && CycleDecision(s, i).0 == Deactivate
    ensures Lookup(CycleDecision(s, i).1.under, uid, 0) >= 3
  {
  }

  /**
    A control-cycle DEACTIVATE has, for each user returned by GetLimitedUsers, three
    samples below the release threshold. They are the latest three: no other cycle since the
    first of them took a sample of that user.
  */
  lemma DeactivationNeedsThreeSamples(cfg: Config, w: bool, es: seq<Event>, i: CycleInput, uid: Uid)
    requires Evaluated(i) && uid in i.limited
    requires CycleDecision(Run(Initial(cfg, w), es), i).0 == Deactivate
    ensures var ss := SamplesWith(Initial(cfg, w), es, i, uid);
            && Genuine(Initial(cfg, w), es + [Cycle(i)], ss, uid)
            && Complete(Initial(cfg, w), es + [Cycle(i)], ss, uid)
            && |ss| >= 3 && forall k | |ss| - 3 <= k < |ss| :: ss[k].below
  {
    var start := Initial(cfg, w);
    NowGenuine(start, es, i, uid);
    SamplesAreComplete(start, es, uid);
    CompleteWith(start, es, i, uid);
    hide Complete;
    CountersAreRuns(cfg, w, es, uid);
    CounterSeen(cfg, w, es, i, uid);
    hide CycleDecision, Samples, SamplesWith, Genuine, Run;
    DeactivateIsStable(Run(start, es), i, uid);
    LongRunsEndBelow(SamplesWith(start, es, i, uid), 3);
  }

  lemma NowGenuine(s: State, es: seq<Event>, i: CycleInput, uid: Uid)
    requires Evaluated(i)
    ensures Genuine(s, es + [Cycle(i)], SamplesWith(s, es, i, uid), uid)
  {
    var all, seen := es + [Cycle(i)], Samples(s, es, uid);
    assert all[..|es|] == es;
    SamplesAreGenuine(s, es, uid);
    hide Samples, TakesSamples, Sampled, Run;
    forall k | 0 <= k < |seen| ensures GenuineSample(s, all, seen[k], uid) {
      assert GenuineSample(s, es, seen[k], uid);
      assert all[..seen[k].at] == es[..seen[k].at];
    }
  }

  // ------------------------------------------------------- one maintain cycle repairs

  /**
    A maintain cycle leaves exactly the busy eligible users limited if and only if every
    limited user that stays busy is still eligible and no creation that it needs fails.
  */
  lemma MaintainRepairsIff(s: State, m: Metrics, effects: Effects, now: int)
    requires s.limitsActive && s.sharedPath != ""
    ensures ReleaseIdle(s, m, effects, now).activeUsers == BusyUsers(m)
            <==> && (forall uid | uid in s.activeUsers - IdleUsers(s, m) :: uid in m.eligible)
                 && BusyUsers(m) - s.activeUsers !! effects.createFails
  {
    var after := ReleaseIdle(s, m, effects, now).activeUsers;
    var added := BusyUsers(m) - s.activeUsers - effects.createFails;
    assert after == s.activeUsers - IdleUsers(s, m) + added;
    forall uid | uid in s.activeUsers - IdleUsers(s, m)
      ensures uid in m.eligible <==> uid in BusyUsers(m) {}
    if after == BusyUsers(m) {
      forall uid | uid in BusyUsers(m) - s.activeUsers ensures uid !in effects.createFails {
        assert uid in after;
      }
    }
  }

  /** The reading was filtered by `passes`. */
  ghost predicate FilteredBy(m: Metrics, passes: Uid -> bool) {
    m.eligible == set uid | uid in m.userCPU && passes(uid)
  }

  ghost predicate EventFilteredBy(e: Event, passes: Uid -> bool) {
    match e
    case Cycle(i) => i.reading.Some? ==> FilteredBy(i.reading.value, passes)
    case ForceActivate(r, _, _) => r.Some? ==> FilteredBy(r.value, passes)
    case _ => true
  }

  lemma {:induction false} LimitedUsersPass(cfg: Config, w: bool, es: seq<Event>, passes: Uid -> bool)
    requires forall e | e in es :: EventFilteredBy(e, passes)
    ensures forall uid | uid in Run(Initial(cfg, w), es).activeUsers :: passes(uid)
  {
    hide RunCycle, CycleDecision, ActivateLimits;
    if es != [] {
      var before, e := es[..|es| - 1], es[|es| - 1];
      assert e in es && forall x | x in before :: x in es;
      LimitedUsersPass(cfg, w, before, passes);
      var s := Run(Initial(cfg, w), before);
      match e {
        case Cycle(i) =>
          if Evaluated(i) {
            CycleIs(s, i);
          } else {
            IdleCycle(s, i);
          }
        case ForceActivate(r, fx, now) =>
          if r.Some? {
            ActivateOnlyAdds(s, r.value, fx, now);
          }
        case _ =>
      }
    }
  }

  /** After any run under fixed filters, one maintain cycle repairs the limited set. */
  lemma MaintainRepairs(cfg: Config, w: bool, es: seq<Event>, i: CycleInput, passes: Uid -> bool)
    requires forall e | e in es :: EventFilteredBy(e, passes)
    requires Evaluated(i) && FilteredBy(i.reading.value, passes)
    requires Run(Initial(cfg, w), es).limitsActive
    requires CycleDecision(Run(Initial(cfg, w), es), i).0 == Maintain
    requires BusyUsers(i.reading.value) !! i.effects.createFails
    ensures RunCycle(Run(Initial(cfg, w), es), i).activeUsers
            == set uid | uid in i.reading.value.userCPU && passes(uid) && i.reading.value.userCPU[uid] >= IDLE_THRESHOLD
  {
    var s, m := Run(Initial(cfg, w), es), i.reading.value;
    RunIsConsistent(cfg, w, es);
    LimitedUsersPass(cfg, w, es, passes);
    DecideKeepsTables(s, m, i.limited, i.ema, i.clock.decide);
    MaintainRepairsIff(CycleDecision(s, i).1, m, i.effects, i.clock.apply);
  }
}
