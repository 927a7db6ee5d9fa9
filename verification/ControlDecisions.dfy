/**
  When the control loop decides what, in terms of the configuration, the reading and the
  clock: no percentages, and one condition for each decision.
*/
module ControlDecisions {
  import opened Common
  import opened ControlModel
  import opened ControlInvariants

  // ------------------------------------------------------- resources

  const MEGABYTE := 1048576.0

  /** The limited users hold at least that many percent of the memory. */
  predicate HoldsRAM(m: Metrics, percent: int) {
    100.0 * m.limitedRAMBytes as real >= percent as real * (MEGABYTE * m.totalMemoryMB)
  }

  function Wrapped(n: nat): nat { n % UINT64 }

  /** One write limit for every eligible user, added up in 64-bit arithmetic. */
  ghost function Allowance(limit: nat, users: set<Uid>): nat {
    Fold(users, 0, (t: nat, u: Uid) => Wrapped(t + limit))
  }

  /** I/O is limited, and the limited users write at least that many percent of their allowance. */
  ghost predicate WritesIO(cfg: Config, m: Metrics, percent: int) {
    && cfg.ioEnabled && cfg.ioWriteLimit.Some? && percent > 0
    && var allowance := Allowance(cfg.ioWriteLimit.value, m.eligible);
       allowance > 0 && 100.0 * m.limitedIOBytes as real >= percent as real * allowance as real
  }

  ghost predicate NeedsRAM(cfg: Config, m: Metrics, percent: int) {
    cfg.ramEnabled && percent > 0 && m.totalMemoryMB > 0.0 && HoldsRAM(m, percent)
  }

  lemma {:induction false} AllowanceIs(limit: nat, users: set<Uid>)
    ensures Allowance(limit, users) == (limit * |users|) % UINT64
  {
    if users != {} {
      var u :| u in users;
      assert |users - {u}| == |users| - 1;
      AllowanceIs(limit, users - {u});
      hide Fold;
      FoldAnyOrder(users, 0, (t: nat, v: Uid) => Wrapped(t + limit), u);
      Wraps(limit * (|users| - 1), limit);
      OneMoreLimit(limit, |users|);
      assert Allowance(limit, users) == Wrapped(Allowance(limit, users - {u}) + limit);
    }
  }

  lemma OneMoreLimit(limit: nat, n: nat)
    ensures limit * n == limit * (n - 1) + limit
  {
  }

  lemma Wraps(a: nat, b: nat)
    ensures (a % UINT64 + b) % UINT64 == (a + b) % UINT64
  {
  }

  /** A percentage reaches a bound exactly if the product does. */
  lemma Percentage(part: real, whole: real, percent: real)
    requires whole > 0.0
    ensures part / whole * 100.0 >= percent <==> 100.0 * part >= percent * whole
  {
    var q := part / whole;
    assert q * whole == part;
    Scaled(q * 100.0, percent, whole);
    assert q * 100.0 * whole == 100.0 * part;
  }

  lemma Scaled(a: real, b: real, c: real)
    requires c > 0.0
    ensures a >= b <==> a * c >= b * c
  {
    if a >= b {
      assert (a - b) * c >= 0.0;
    } else {
      assert (b - a) * c > 0.0;
    }
  }

  lemma RAMIs(m: Metrics, percent: int)
    requires m.totalMemoryMB > 0.0
    ensures RAMPercent(m) >= percent as real <==> HoldsRAM(m, percent)
  {
    var bytes, mb := m.limitedRAMBytes as real, m.totalMemoryMB;
    Percentage(bytes / MEGABYTE, mb, percent as real);
    Scaled(100.0 * (bytes / MEGABYTE), percent as real * mb, MEGABYTE);
    assert bytes / MEGABYTE * MEGABYTE == bytes;
    Regroup(percent as real, mb);
  }

  lemma Regroup(p: real, mb: real)
    ensures p * mb * MEGABYTE == p * (MEGABYTE * mb)
  {
  }

  lemma IOIs(cfg: Config, m: Metrics, percent: int)
    ensures WritesIO(cfg, m, percent)
       <==> percent > 0 && TotalWriteLimit(cfg, m) > 0 && IOPercent(cfg, m) >= percent as real
  {
    if cfg.ioEnabled && cfg.ioWriteLimit.Some? {
      AllowanceIs(cfg.ioWriteLimit.value, m.eligible);
      var total := TotalWriteLimit(cfg, m);
      if total > 0 {
        Percentage(m.limitedIOBytes as real, total as real, percent as real);
      }
    }
  }

  lemma ResourcesAre(cfg: Config, m: Metrics)
    ensures RAMExceeded(cfg, m) <==> NeedsRAM(cfg, m, cfg.ramThreshold)
    ensures RAMBelow(cfg, m) <==> !NeedsRAM(cfg, m, cfg.ramRelease)
    ensures IOExceeded(cfg, m) <==> WritesIO(cfg, m, cfg.ioThreshold)
    ensures IOBelow(cfg, m) <==> !WritesIO(cfg, m, cfg.ioRelease)
  {
    hide RAMPercent, HoldsRAM, IOPercent, TotalWriteLimit, WritesIO;
    IOIs(cfg, m, cfg.ioThreshold);
    IOIs(cfg, m, cfg.ioRelease);
    if m.totalMemoryMB > 0.0 {
      RAMIs(m, cfg.ramThreshold);
      RAMIs(m, cfg.ramRelease);
    }
  }

  // ------------------------------------------------------- the end of limits

  /** The low samples in a row that a user has, counting the one this cycle takes. */
  function LowSamples(s: State, i: CycleInput, uid: Uid): int {
    if uid !in i.ema then Lookup(s.under, uid, 0)
    else if i.ema[uid] < s.cfg.cpuRelease as real then Lookup(s.under, uid, 0) + 1
    else 0
  }

  /** What it takes to let the users go. */
  ghost predicate ReleaseDue(s: State, i: CycleInput)
    requires Evaluated(i)
  {
    var m := i.reading.value;
    && (s.appliedAt.Some? ==> i.clock.decide - s.appliedAt.value >= s.cfg.minActiveTime * SECOND)
    && m.limitedCPU < s.cfg.cpuRelease as real
    && !NeedsRAM(s.cfg, m, s.cfg.ramRelease) && !WritesIO(s.cfg, m, s.cfg.ioRelease)
    && !m.underLoad
    && forall uid | uid in i.limited :: LowSamples(s, i, uid) >= 3
  }

  lemma StableIs(s: State, i: CycleInput)
    ensures Stable(CountSamples(s.under, i.limited, i.ema, s.cfg.cpuRelease as real), i.limited)
       <==> forall uid | uid in i.limited :: LowSamples(s, i, uid) >= 3
  {
    var under := CountSamples(s.under, i.limited, i.ema, s.cfg.cpuRelease as real);
    forall uid | uid in i.limited ensures Lookup(under, uid, 0) == LowSamples(s, i, uid) {
    }
  }

  /** Active limits are given up exactly then. */
  lemma DeactivatesIff(s: State, i: CycleInput)
    requires Evaluated(i) && s.limitsActive
    ensures CycleDecision(s, i).0 == (if ReleaseDue(s, i) then Deactivate else Maintain)
  {
    ResourcesAre(s.cfg, i.reading.value);
    StableIs(s, i);
    hide RAMBelow, IOBelow, NeedsRAM, WritesIO, Stable, CountSamples, LowSamples, ObserveIO;
  }

  // ------------------------------------------------------- the start of limits

  /** A timer that started then has run for the duration; no duration means no wait. */
  predicate RunFor(first: Instant, now: int, duration: int) {
    duration <= 0 || (first.Some? && now - first.value >= duration * SECOND)
  }

  /** Some resource has been over its threshold for as long as it must. */
  ghost predicate OverThreshold(s: State, i: CycleInput)
    requires Evaluated(i)
  {
    var m := i.reading.value;
    || NeedsRAM(s.cfg, m, s.cfg.ramThreshold)
    || (WritesIO(s.cfg, m, s.cfg.ioThreshold) && RunFor(s.ioTracker.first, i.clock.decide, s.cfg.ioDuration))
    || (m.limitedCPU >= s.cfg.cpuThreshold as real && RunFor(s.cpuTracker.first, i.clock.decide, s.cfg.cpuDuration))
  }

  /** The machine has cores to spare, and its load is no reason to hold back. */
  predicate Spare(cfg: Config, m: Metrics) {
    m.totalCores > cfg.minSystemCores && (m.underLoad ==> cfg.ignoreLoad)
  }

  lemma IOCountsIff(s: State, i: CycleInput)
    requires Evaluated(i)
    ensures ObserveIO(s, i.reading.value, i.clock.decide).1
       <==> WritesIO(s.cfg, i.reading.value, s.cfg.ioThreshold) && RunFor(s.ioTracker.first, i.clock.decide, s.cfg.ioDuration)
  {
    ResourcesAre(s.cfg, i.reading.value);
    hide WritesIO, NeedsRAM;
  }

  /** Limits are asked for exactly then. */
  lemma ActivatesIff(s: State, i: CycleInput)
    requires Evaluated(i) && !s.limitsActive
    ensures CycleDecision(s, i).0 == (if OverThreshold(s, i) && Spare(s.cfg, i.reading.value) then Activate else Maintain)
  {
    ResourcesAre(s.cfg, i.reading.value);
    IOCountsIff(s, i);
    hide RAMExceeded, NeedsRAM, WritesIO, ObserveIO;
  }

  // ------------------------------------------------------- the timers

  /** A timer that goes on, or starts now. */
  function GoesOn(first: Instant, now: int): Instant { if first.None? then Some(now) else first }

  /** The CPU calls for limits, for however short a time. */
  predicate CPUCalls(s: State, m: Metrics) { m.limitedCPU >= s.cfg.cpuThreshold as real }

  /** What each decision leaves of the two timers. */
  lemma TimersAfter(s: State, i: CycleInput)
    requires Evaluated(i)
    ensures var (d, after) := CycleDecision(s, i);
            var m := i.reading.value;
            var waits := WritesIO(s.cfg, m, s.cfg.ioThreshold) && s.cfg.ioDuration > 0;
            var idle := if s.limitsActive then d == Deactivate
                        else d == Maintain && !(CPUCalls(s, m) && Spare(s.cfg, m));
            && after.ioTracker.first == (if waits && !idle then GoesOn(s.ioTracker.first, i.clock.decide) else None)
            && after.cpuTracker.first
               == (if idle then None
                   else if !s.limitsActive && CPUCalls(s, m) && s.cfg.cpuDuration > 0
                   then GoesOn(s.cpuTracker.first, i.clock.decide)
                   else s.cpuTracker.first)
  {
    ResourcesAre(s.cfg, i.reading.value);
    hide RAMExceeded, NeedsRAM, WritesIO, AllBelow, CountSamples, Stable;
  }

  // ------------------------------------------------------- a tracker by itself

  datatype Look = Look(value: real, at: int)

  /** The tracker after a series of values against one threshold. */
  function Tracked(xs: seq<Look>, threshold: real, duration: int): Tracker {
    if xs == [] then ZeroTracker
    else
      var x := xs[|xs| - 1];
      Observe(Tracked(xs[..|xs| - 1], threshold, duration), x.value, threshold, duration, x.at).0
  }

  /** How many values at the end are at or above the threshold. */
  function Trailing(xs: seq<Look>, threshold: real): nat {
    if xs == [] || xs[|xs| - 1].value < threshold then 0 else 1 + Trailing(xs[..|xs| - 1], threshold)
  }

  function Over(xs: seq<Look>, threshold: real): nat {
    if xs == [] then 0 else Over(xs[..|xs| - 1], threshold) + if xs[|xs| - 1].value >= threshold then 1 else 0
  }

  lemma {:induction false} TrailingIsPart(xs: seq<Look>, threshold: real)
    ensures Trailing(xs, threshold) <= |xs|
  {
    if xs != [] {
      TrailingIsPart(xs[..|xs| - 1], threshold);
    }
  }

  /**
    A tracker counts all values at or above the threshold, and those at the end that come
    without a lower one between them; its time is that of the first of the latter.
  */
  lemma {:induction false} TrackerIs(xs: seq<Look>, threshold: real, duration: int)
    ensures var t, n := Tracked(xs, threshold, duration), Trailing(xs, threshold);
            && t.overCycles == n <= |xs| && t.totalCycles == Over(xs, threshold)
            && t.first == if n == 0 then None else Some(xs[|xs| - n].at)
  {
    TrailingIsPart(xs, threshold);
    if xs != [] {
      TrackerIs(xs[..|xs| - 1], threshold, duration);
    }
  }

  /** It is ready exactly if the value is at or above the threshold and those at the end cover the duration. */
  lemma ReadyIff(xs: seq<Look>, x: Look, threshold: real, duration: int)
    ensures var all, n := xs + [x], Trailing(xs + [x], threshold);
            n <= |all| && (Observe(Tracked(xs, threshold, duration), x.value, threshold, duration, x.at).1
                           <==> n > 0 && x.at - all[|all| - n].at >= duration)
  {
    assert (xs + [x])[..|xs|] == xs;
    TrackerIs(xs + [x], threshold, duration);
    TrackerIs(xs, threshold, duration);
  }
}
