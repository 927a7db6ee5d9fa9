/**
  The control loop of the resource manager as a step function over values.

  `Decide` is `makeDecision`, `Execute` is `executeDecision`, and `Step` is one
  operation that holds the manager's operation lock. Readings, clock readings and
  the outcome of every cgroup call are inputs of a step. The class `Manager` in
  Manager.dfy carries out the same steps on its fields.
*/
module ControlModel {
  import opened Common

  /** Idle users use less than 0.1% CPU. */
  const IDLE_THRESHOLD := 0.1

  const NORMAL_WEIGHT := 100

  const UINT64 := 0x1_0000_0000_0000_0000

  datatype Config = Config(
    minActiveTime: int,
    cpuThreshold: int,
    cpuRelease: int,
    cpuDuration: int,
    minSystemCores: int,
    ignoreLoad: bool,
    ramEnabled: bool,
    ramThreshold: int,
    ramRelease: int,
    ioEnabled: bool,
    ioThreshold: int,
    ioRelease: int,
    ioWriteLimit: Option<nat>,  // IO_WRITE_BPS as parsed; None when empty, "max" or unparsable
    ioDuration: int,
    psiBoostWeight: int,
    psiBoostDuration: int)

  /** One collected reading. `eligible` holds the users that pass the include and exclude filters. */
  datatype Metrics = Metrics(
    totalCores: int,
    limitedCPU: real,
    limitedRAMBytes: nat,
    limitedIOBytes: nat,
    totalMemoryMB: real,
    underLoad: bool,
    userCPU: map<Uid, real>,
    eligible: set<Uid>)

  datatype Decision = Activate | Maintain | Deactivate

  datatype Tracker = Tracker(first: Instant, overCycles: nat, totalCycles: nat)

  const ZeroTracker := Tracker(None, 0, 0)

  /** The users whose cpu.pressure and io.pressure files are monitored. */
  datatype Monitored = Monitored(cpu: set<Uid>, io: set<Uid>)

  /** A goroutine that was started and has not finished yet. */
  datatype Task =
    | Place(uid: Uid)    // move the user's processes in, then set the weight to 100
    | Release(uid: Uid)  // move the user's processes out again

  datatype State = State(
    cfg: Config,
    limitsActive: bool,
    appliedAt: Instant,
    activeUsers: set<Uid>,
    sharedPath: string,
    cpuTracker: Tracker,
    ioTracker: Tracker,
    under: map<Uid, int>,
    boostedAt: map<Uid, int>,
    placing: multiset<Uid>,    // pending Place goroutines
    releasing: multiset<Uid>,  // pending Release goroutines
    weights: map<Uid, int>,  // cpu.weight as written by ApplyCPUWeight; 100 when never written
    monitors: Monitored,
    hasWatcher: bool)

  /** What the cgroup layer answers during one step. */
  datatype Effects = Effects(
    sharedBase: Option<string>,     // CreateSharedCgroup: the base path, or a failure
    quotaOk: bool,                  // ApplySharedCPULimit
    createFails: set<Uid>,          // CreateUserSubCgroup
    monitorFails: Monitored,        // AddMonitor
    restoreFails: set<Uid>,         // ApplyCPULimit while deactivating
    weightFails: set<Uid>)          // ApplyCPUWeight

  /** The clock readings of one cycle, in the order in which they are taken. */
  datatype Clock = Clock(decide: int, apply: int, revert: int)

  datatype CycleInput = CycleInput(
    blackout: bool,
    reading: Option<Metrics>,
    limited: set<Uid>,      // GetLimitedUsers
    ema: map<Uid, real>,    // CPUUsageEMA of GetAllUserMetrics
    effects: Effects,
    clock: Clock)

  datatype Event =
    | Cycle(input: CycleInput)
    | PsiEvent(uid: Uid, now: int, weightOk: bool)
    | Refresh
    | ForceActivate(reading: Option<Metrics>, effects: Effects, now: int)
    | ForceDeactivate(effects: Effects)
    | Finish(task: Task, weightOk: bool)
    | UpdateConfig(cfg: Config)

  // ---------------------------------------------------------------- readings

  predicate CPUExceeded(cfg: Config, m: Metrics) { m.limitedCPU >= cfg.cpuThreshold as real }

  predicate CPUBelow(cfg: Config, m: Metrics) { m.limitedCPU < cfg.cpuRelease as real }

  function RAMPercent(m: Metrics): real
    requires m.totalMemoryMB > 0.0
  {
    (m.limitedRAMBytes as real / 1048576.0) / m.totalMemoryMB * 100.0
  }

  predicate RAMExceeded(cfg: Config, m: Metrics) {
    cfg.ramEnabled && cfg.ramThreshold > 0 && m.totalMemoryMB > 0.0
    && RAMPercent(m) >= cfg.ramThreshold as real
  }

  predicate RAMBelow(cfg: Config, m: Metrics) {
    (cfg.ramEnabled && cfg.ramRelease > 0 && m.totalMemoryMB > 0.0) ==> RAMPercent(m) < cfg.ramRelease as real
  }

  /** The total write limit, multiplied in 64-bit unsigned arithmetic. */
  function TotalWriteLimit(cfg: Config, m: Metrics): nat {
    if cfg.ioEnabled && cfg.ioWriteLimit.Some?
    then (cfg.ioWriteLimit.value * |m.eligible|) % UINT64
    else 0
  }

  function IOPercent(cfg: Config, m: Metrics): real {
    var total := TotalWriteLimit(cfg, m);
    if total > 0 then m.limitedIOBytes as real / total as real * 100.0 else 0.0
  }

  predicate IOExceeded(cfg: Config, m: Metrics) {
    cfg.ioThreshold > 0 && TotalWriteLimit(cfg, m) > 0
    && IOPercent(cfg, m) >= cfg.ioThreshold as real
  }

  predicate IOBelow(cfg: Config, m: Metrics) {
    (cfg.ioRelease > 0 && TotalWriteLimit(cfg, m) > 0) ==> IOPercent(cfg, m) < cfg.ioRelease as real
  }

  predicate AllBelow(cfg: Config, m: Metrics) {
    CPUBelow(cfg, m) && RAMBelow(cfg, m) && IOBelow(cfg, m)
  }

  // ---------------------------------------------------------------- decisions

  /** `ThresholdTracker.ShouldActivateLimits`. */
  function Observe(t: Tracker, current: real, threshold: real, duration: int, now: int): (Tracker, bool) {
    if current >= threshold then
      var first := if t.first.None? then Some(now) else t.first;
      (Tracker(first, t.overCycles + 1, t.totalCycles + 1), now - first.value >= duration)
    else
      (Tracker(None, 0, t.totalCycles), false)
  }

  /** The I/O tracker after its own duration check, and whether I/O still counts as exceeded. */
  function ObserveIO(s: State, m: Metrics, now: int): (Tracker, bool) {
    if s.cfg.ioDuration > 0 && IOExceeded(s.cfg, m) then
      Observe(s.ioTracker, IOPercent(s.cfg, m), s.cfg.ioThreshold as real, s.cfg.ioDuration * SECOND, now)
    else
      (ZeroTracker, IOExceeded(s.cfg, m))
  }

  /** The limits were applied less than MIN_ACTIVE_TIME ago. */
  predicate Waiting(s: State, now: int) {
    !ElapsedAtLeast(now, s.appliedAt, s.cfg.minActiveTime * SECOND)
  }

  /** One more sample for every limited user that has metrics. */
  function CountSamples(under: map<Uid, int>, limited: set<Uid>, ema: map<Uid, real>, release: real): map<Uid, int> {
    map uid | uid in under.Keys + (limited * ema.Keys) ::
      if uid in limited && uid in ema
      then if ema[uid] < release then Lookup(under, uid, 0) + 1 else 0
      else Lookup(under, uid, 0)
  }

  predicate Stable(under: map<Uid, int>, limited: set<Uid>) {
    forall uid | uid in limited :: Lookup(under, uid, 0) >= 3
  }

  /** The branch of `makeDecision` taken while limits are active. */
  function DecideActive(s: State, m: Metrics, limited: set<Uid>, ema: map<Uid, real>, now: int): (Decision, State) {
    if Waiting(s, now) || !AllBelow(s.cfg, m) then (Maintain, s)
    else
      var under := CountSamples(s.under, limited, ema, s.cfg.cpuRelease as real);
      var counted := s.(under := under);
      if !m.underLoad && Stable(under, limited)
      then (Deactivate, counted.(cpuTracker := ZeroTracker, ioTracker := ZeroTracker))
      else (Maintain, counted)
  }

  predicate EnoughCores(cfg: Config, m: Metrics) { m.totalCores > cfg.minSystemCores }

  predicate LoadAllowed(cfg: Config, m: Metrics) { cfg.ignoreLoad || !m.underLoad }

  /** The branch of `makeDecision` taken while limits are inactive. */
  function DecideInactive(s: State, m: Metrics, ioExceeded: bool, now: int): (Decision, State) {
    var cpu := CPUExceeded(s.cfg, m);
    var others := RAMExceeded(s.cfg, m) || ioExceeded;
    var cleared := s.(cpuTracker := ZeroTracker, ioTracker := ZeroTracker);
    if !(cpu || others) || !EnoughCores(s.cfg, m) || !LoadAllowed(s.cfg, m) then (Maintain, cleared)
    else if cpu && s.cfg.cpuDuration > 0 then
      var (t, ready) := Observe(s.cpuTracker, m.limitedCPU, s.cfg.cpuThreshold as real, s.cfg.cpuDuration * SECOND, now);
      (if ready || others then Activate else Maintain, s.(cpuTracker := t))
    else (Activate, s)
  }

  /** `makeDecision`: the decision, and the state with its trackers and counters updated. */
  function Decide(s: State, m: Metrics, limited: set<Uid>, ema: map<Uid, real>, now: int): (Decision, State) {
    var (io, ioExceeded) := ObserveIO(s, m, now);
    var seen := s.(ioTracker := io);
    if s.limitsActive then DecideActive(seen, m, limited, ema, now)
    else DecideInactive(seen, m, ioExceeded, now)
  }

  // ---------------------------------------------------------------- actions

  /** The monitors after AddMonitor was called for both pressure files of each user. */
  function Watch(hasWatcher: bool, m: Monitored, users: set<Uid>, fails: Monitored): Monitored {
    if hasWatcher then Monitored(m.cpu + (users - fails.cpu), m.io + (users - fails.io)) else m
  }

  /** The monitors after RemoveMonitor was called for both pressure files of each user. */
  function Unwatch(hasWatcher: bool, m: Monitored, users: set<Uid>): Monitored {
    if hasWatcher then Monitored(m.cpu - users, m.io - users) else m
  }

  /** Users enter the shared cgroup: a monitor pair if there is a watcher, a placement goroutine, the mark. */
  function AddUsers(s: State, added: set<Uid>, effects: Effects): State {
    s.(activeUsers := s.activeUsers + added,
       monitors := Watch(s.hasWatcher, s.monitors, added, effects.monitorFails),
       placing := s.placing + multiset(added))
  }

  function IdleUsers(s: State, m: Metrics): set<Uid> {
    set uid | uid in s.activeUsers && (uid !in m.userCPU || m.userCPU[uid] < IDLE_THRESHOLD)
  }

  /** Eligible users that use CPU: those a reading says should be limited. */
  function BusyUsers(m: Metrics): set<Uid> {
    set uid | uid in m.eligible && uid in m.userCPU && m.userCPU[uid] >= IDLE_THRESHOLD
  }

  function ReleaseUsers(s: State, released: set<Uid>): State {
    s.(activeUsers := s.activeUsers - released,
       boostedAt := s.boostedAt - released,
       monitors := Unwatch(s.hasWatcher, s.monitors, released),
       releasing := s.releasing + multiset(released))
  }

  /** `releaseIdleUsers`. */
  function ReleaseIdle(s: State, m: Metrics, effects: Effects, now: int): State {
    if !s.limitsActive then s
    else
      var added := if s.sharedPath == "" then {} else BusyUsers(m) - s.activeUsers - effects.createFails;
      var done := AddUsers(ReleaseUsers(s, IdleUsers(s, m)), added, effects);
      if added == {} then done else done.(appliedAt := Some(now))
  }

  function SharedPath(base: string): string { base + "/limited" }

  /** Phase 2 of `activateLimits`: create the shared cgroup if there is none. */
  function OpenShared(s: State, effects: Effects): (bool, State) {
    if s.sharedPath != "" then (true, s)
    else if effects.sharedBase.None? then (false, s)
    else (effects.quotaOk, s.(sharedPath := SharedPath(effects.sharedBase.value)))
  }

  /** Phase 3 of `activateLimits`: add the eligible users that are not limited yet. */
  function Enrol(s: State, dropped: bool, m: Metrics, effects: Effects, now: int): (bool, State) {
    var wanted := m.eligible - s.activeUsers;
    var added := wanted - effects.createFails;
    var done := AddUsers(s, added, effects);
    (wanted * effects.createFails == {},
     if added != {} || dropped then done.(limitsActive := true, appliedAt := Some(now)) else done)
  }

  /** `activateLimits`: whether it returned without error, and the new state. */
  function ActivateLimits(s: State, m: Metrics, effects: Effects, now: int): (bool, State) {
    var kept := s.(activeUsers := s.activeUsers * m.userCPU.Keys);
    var (ready, shared) := OpenShared(kept, effects);
    if !ready then (false, shared)
    else Enrol(shared, kept.activeUsers != s.activeUsers, m, effects, now)
  }

  /** ApplyCPUWeight(uid, 100) for each of the users. */
  function ResetWeights(weights: map<Uid, int>, uids: set<Uid>): map<Uid, int> {
    weights + map uid | uid in uids :: NORMAL_WEIGHT
  }

  /** The users whose placement ends with a weight that could be written. */
  function Placed(placing: multiset<Uid>, weightFails: set<Uid>): set<Uid> {
    set uid | uid in placing && uid !in weightFails
  }

  /** `wg.Wait()`: every pending goroutine finishes. */
  function Drain(s: State, weightFails: set<Uid>): State {
    s.(placing := multiset{}, releasing := multiset{}, weights := ResetWeights(s.weights, Placed(s.placing, weightFails)))
  }

  /** `deactivateLimits`. */
  function DeactivateLimits(s: State, effects: Effects): (bool, State) {
    var users := s.activeUsers;
    var idle := Drain(s, effects.weightFails);
    (users * effects.restoreFails == {},
     idle.(activeUsers := {}, limitsActive := false, appliedAt := None, sharedPath := "",
           monitors := Unwatch(s.hasWatcher, s.monitors, users),
           under := s.under - users, boostedAt := s.boostedAt - users))
  }

  /** `executeDecision`. */
  function Execute(s: State, d: Decision, m: Metrics, effects: Effects, now: int): (bool, State) {
    match d
    case Activate => ActivateLimits(s, m, effects, now)
    case Deactivate => DeactivateLimits(s, effects)
    case Maintain => (true, ReleaseIdle(s, m, effects, now))
  }

  function ExpiredBoosts(s: State, now: int): set<Uid> {
    set uid | uid in s.boostedAt && now - s.boostedAt[uid] >= s.cfg.psiBoostDuration * SECOND
  }

  /** `revertPSIBoosts`: an expired entry is dropped even when its weight could not be written. */
  function RevertBoosts(s: State, weightFails: set<Uid>, now: int): State {
    var expired := ExpiredBoosts(s, now);
    s.(weights := ResetWeights(s.weights, expired - weightFails),
       boostedAt := s.boostedAt - expired)
  }

  /** `ApplyCPUWeight` clamps the weight. */
  function Clamp(weight: int): int {
    if weight < 1 then 1 else if weight > 10000 then 10000 else weight
  }

  /** `OnUserPSIEvent`. */
  function BoostUser(s: State, uid: Uid, now: int, weightOk: bool): State {
    if uid.id <= 0 || uid !in s.activeUsers || !weightOk then s
    else s.(weights := s.weights[uid := Clamp(s.cfg.psiBoostWeight)], boostedAt := s.boostedAt[uid := now])
  }

  /** One pending goroutine ends. */
  function FinishTask(s: State, t: Task, weightOk: bool): State {
    match t
    case Release(uid) => s.(releasing := s.releasing - multiset{uid})
    case Place(uid) =>
      if uid !in s.placing then s
      else
        s.(placing := s.placing - multiset{uid},
           weights := if weightOk then ResetWeights(s.weights, {uid}) else s.weights)
  }

  // ---------------------------------------------------------------- steps

  /** The cycle reaches `makeDecision`. */
  predicate Evaluated(i: CycleInput) { !i.blackout && i.reading.Some? }

  function CycleDecision(s: State, i: CycleInput): (Decision, State)
    requires Evaluated(i)
  {
    Decide(s, i.reading.value, i.limited, i.ema, i.clock.decide)
  }

  function CycleExecution(s: State, i: CycleInput): (bool, State)
    requires Evaluated(i)
  {
    var (d, decided) := CycleDecision(s, i);
    Execute(decided, d, i.reading.value, i.effects, i.clock.apply)
  }

  /** `RunControlCycleWithTrigger`: a failed execution skips the later stages. */
  function RunCycle(s: State, i: CycleInput): State {
    if !Evaluated(i) then s
    else
      var (ok, executed) := CycleExecution(s, i);
      if ok && s.hasWatcher then RevertBoosts(executed, i.effects.weightFails, i.clock.revert) else executed
  }

  function Step(s: State, e: Event): State {
    match e
    case Cycle(i) => RunCycle(s, i)
    case PsiEvent(uid, now, ok) => BoostUser(s, uid, now, ok)
    case Refresh => s
    case ForceActivate(r, fx, now) => if r.None? then s else ActivateLimits(s, r.value, fx, now).1
    case ForceDeactivate(fx) => DeactivateLimits(s, fx).1.(under := map[])
    case Finish(t, ok) => FinishTask(s, t, ok)
    case UpdateConfig(cfg) => s.(cfg := cfg)
  }

  /** `NewManager`. */
  function Initial(cfg: Config, hasWatcher: bool): State {
    State(cfg, false, None, {}, "", ZeroTracker, ZeroTracker, map[], map[], multiset{}, multiset{}, map[],
          Monitored({}, {}), hasWatcher)
  }

  function Run(s: State, es: seq<Event>): State {
    if es == [] then s else Step(Run(s, es[..|es| - 1]), es[|es| - 1])
  }

  /** The state before event number `i`. */
  function At(s: State, es: seq<Event>, i: nat): State
    requires i <= |es|
  {
    Run(s, es[..i])
  }

  lemma AtNext(s: State, es: seq<Event>, i: nat)
    requires i < |es|
    ensures At(s, es, i + 1) == Step(At(s, es, i), es[i])
  {
    assert es[..i + 1][..i] == es[..i];
  }

  // ---------------------------------------------------------------- clocks

  predicate Ordered(c: Clock) { c.decide <= c.apply <= c.revert }

  function Started(e: Event): Instant {
    match e
    case Cycle(i) => Some(i.clock.decide)
    case PsiEvent(_, now, _) => Some(now)
    case ForceActivate(_, _, now) => Some(now)
    case _ => None
  }

  function Ended(e: Event): Instant {
    match e
    case Cycle(i) => Some(i.clock.revert)
    case _ => Started(e)
  }

  /** The clock never runs backwards over the events of a run. */
  ghost predicate Timely(es: seq<Event>) {
    && (forall i | 0 <= i < |es| && es[i].Cycle? :: Ordered(es[i].input.clock))
    && (forall i, j | 0 <= i < j < |es| && Ended(es[i]).Some? && Started(es[j]).Some? ::
          Ended(es[i]).value <= Started(es[j]).value)
  }

  // ---------------------------------------------------------------- possible runs

  /** The CPU use of some users, added up. */
  ghost function UsedCPU(userCPU: map<Uid, real>, users: set<Uid>): real {
    Fold(users, 0.0, (t: real, u: Uid) => t + Lookup(userCPU, u, 0.0))
  }

  /** What one pass over the users can report: its totals are sums over the users that pass the filters. */
  ghost predicate Collected(m: Metrics) {
    && m.eligible <= m.userCPU.Keys
    && (forall uid | uid in m.userCPU :: m.userCPU[uid] >= 0.0)
    && m.limitedCPU == UsedCPU(m.userCPU, m.eligible)
    && (m.eligible == {} ==> m.limitedRAMBytes == 0 && m.limitedIOBytes == 0)
  }

  function ReadingOf(e: Event): Option<Metrics> {
    match e
    case Cycle(i) => if i.blackout then None else i.reading
    case ForceActivate(r, _, _) => r
    case _ => None
  }

  /** The user queries of a cycle answer from the same table as its reading. */
  predicate Agreeing(e: Event) {
    e.Cycle? && Evaluated(e.input) ==>
      e.input.limited == e.input.reading.value.eligible && e.input.ema.Keys == e.input.reading.value.userCPU.Keys
  }

  /**
    A run that can happen to a new manager: clocks advance, readings are collected, the first
    one has no write rates yet, and only a watcher sends pressure events.
  */
  ghost predicate Possible(hasWatcher: bool, es: seq<Event>) {
    && Timely(es)
    && (forall n | 0 <= n < |es| :: Agreeing(es[n]) && (es[n].PsiEvent? ==> hasWatcher))
    && (forall n | 0 <= n < |es| && ReadingOf(es[n]).Some? :: Collected(ReadingOf(es[n]).value))
    && (forall n | 0 <= n < |es| && ReadingOf(es[n]).Some? && ReadingOf(es[n]).value.limitedIOBytes != 0 ::
          exists k :: 0 <= k < n && ReadingOf(es[k]).Some?)
  }

  lemma CollectedNobody(m: Metrics)
    requires m.userCPU == map[] && m.eligible == {} && m.limitedCPU == 0.0
    requires m.limitedRAMBytes == 0 && m.limitedIOBytes == 0
    ensures Collected(m)
  {
  }

  lemma CollectedOne(m: Metrics, uid: Uid)
    requires m.userCPU == map[uid := m.limitedCPU] && m.eligible == {uid} && m.limitedCPU >= 0.0
    ensures Collected(m)
  {
    FoldAnyOrder({uid}, 0.0, (t: real, u: Uid) => t + Lookup(m.userCPU, u, 0.0), uid);
    assert {uid} - {uid} == {};
  }
}
