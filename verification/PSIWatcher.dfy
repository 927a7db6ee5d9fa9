/**
  The pressure watcher: a list of monitors that only grows while the poll loop runs, and
  the loop itself, which polls a snapshot of the list without holding the lock.
*/
module PSIWatcher {
  import opened Common

  datatype Kind = CPU | IO

  /** A descriptor number, which the system may use again once it is closed. */
  datatype Fd = Fd(number: int)

  datatype Monitor = Monitor(uid: Uid, kind: Kind, fd: Fd, active: bool)

  predicate Watches(m: Monitor, uid: Uid, kind: Kind) { m.active && m.uid == uid && m.kind == kind }

  function Disable(m: Monitor, uid: Uid, kind: Kind): Monitor {
    if Watches(m, uid, kind) then m.(active := false) else m
  }

  predicate Watched(ms: seq<Monitor>, uid: Uid, kind: Kind) {
    exists m | m in ms :: Watches(m, uid, kind)
  }

  /** `AddMonitor`, where `opened` is the new descriptor if the file could be opened and written. */
  function Add(ms: seq<Monitor>, hasThreshold: bool, uid: Uid, kind: Kind, file: Option<Fd>): seq<Monitor> {
    if Watched(ms, uid, kind) || !hasThreshold || file.None? then ms
    else ms + [Monitor(uid, kind, file.value, true)]
  }

  function Remove(ms: seq<Monitor>, uid: Uid, kind: Kind): seq<Monitor> {
    seq(|ms|, i requires 0 <= i < |ms| => Disable(ms[i], uid, kind))
  }

  /** The list positions of the active monitors, in the order in which they are polled. */
  function Entries(ms: seq<Monitor>): (r: seq<nat>)
    ensures forall i | 0 <= i < |r| :: r[i] < |ms| && ms[r[i]].active
  {
    if ms == [] then []
    else Entries(ms[..|ms| - 1]) + if ms[|ms| - 1].active then [|ms| - 1] else []
  }

  /** The polled descriptors, and `fdIndex`. */
  function PollFds(ms: seq<Monitor>): seq<Fd> {
    if ms == [] then []
    else PollFds(ms[..|ms| - 1]) + if ms[|ms| - 1].active then [ms[|ms| - 1].fd] else []
  }

  function FdIndex(ms: seq<Monitor>): map<Fd, nat> {
    if ms == [] then map[]
    else
      var before := FdIndex(ms[..|ms| - 1]);
      if ms[|ms| - 1].active then before[ms[|ms| - 1].fd := |ms| - 1] else before
  }

  class Watcher {
    var monitors: seq<Monitor>
    var thresholds: map<Kind, nat>

    constructor ()
      ensures monitors == [] && thresholds == map[]
    {
      monitors, thresholds := [], map[];
    }

    method AddMonitor(uid: Uid, kind: Kind, file: Option<Fd>) returns (ok: bool)
      modifies this`monitors
      ensures monitors == Add(old(monitors), kind in thresholds, uid, kind, file)
      ensures ok <==> Watched(old(monitors), uid, kind) || (kind in thresholds && file.Some?)
      ensures ok ==> Watched(monitors, uid, kind)
    {
      for k := 0 to |monitors|
        invariant monitors == old(monitors)
        invariant forall j | 0 <= j < k :: !Watches(monitors[j], uid, kind)
      {
        if Watches(monitors[k], uid, kind) {
          return true;
        }
      }
      if kind !in thresholds || file.None? {
        return false;
      }
      var m := Monitor(uid, kind, file.value, true);
      monitors := monitors + [m];
      assert monitors[|monitors| - 1] == m && Watches(m, uid, kind);
      return true;
    }

    method RemoveMonitor(uid: Uid, kind: Kind)
      modifies this`monitors
      ensures monitors == Remove(old(monitors), uid, kind)
    {
      for k := 0 to |monitors|
        invariant |monitors| == |old(monitors)|
        invariant forall j | 0 <= j < k :: monitors[j] == Disable(old(monitors)[j], uid, kind)
        invariant forall j | k <= j < |monitors| :: monitors[j] == old(monitors)[j]
      {
        if Watches(monitors[k], uid, kind) {
          monitors := monitors[k := monitors[k].(active := false)];
        }
      }
    }

    /** The locked section in which the poll loop collects its descriptors. */
    method Snapshot() returns (pollFds: seq<Fd>, fdIndex: map<Fd, nat>)
      ensures pollFds == PollFds(monitors) && fdIndex == FdIndex(monitors)
    {
      pollFds, fdIndex := [], map[];
      for k := 0 to |monitors|
        invariant pollFds == PollFds(monitors[..k]) && fdIndex == FdIndex(monitors[..k])
      {
        assert monitors[..k + 1][..k] == monitors[..k];
        var m := monitors[k];
        if m.active {
          pollFds := pollFds + [m.fd];
          fdIndex := fdIndex[m.fd := k];
        }
      }
      assert monitors[..|monitors|] == monitors;
    }

    /** The locked section in which a ready descriptor is mapped back to its monitor. */
    method Resolve(fd: Fd, fdIndex: map<Fd, nat>) returns (m: Option<Monitor>)
      ensures m == Resolved(monitors, fd, fdIndex)
    {
      if fd !in fdIndex || fdIndex[fd] >= |monitors| || !monitors[fdIndex[fd]].active {
        return None;
      }
      return Some(monitors[fdIndex[fd]]);
    }

    /** The end of `Stop`, once the poll loop has been joined. */
    method Clear()
      modifies this`monitors
      ensures monitors == []
    {
      monitors := [];
    }
  }

  function Resolved(ms: seq<Monitor>, fd: Fd, fdIndex: map<Fd, nat>): Option<Monitor> {
    if fd !in fdIndex || fdIndex[fd] >= |ms| || !ms[fdIndex[fd]].active then None
    else Some(ms[fdIndex[fd]])
  }

  // ------------------------------------------------------- the watcher and its loop

  /** Where the poll loop is. `seen` is the list as it was when the snapshot was taken. */
  datatype Loop =
    | NotStarted
    | Top
    | Polled(fds: seq<Fd>, index: map<Fd, nat>, seen: seq<Monitor>)
    | Resolving(fds: seq<Fd>, index: map<Fd, nat>, seen: seq<Monitor>, found: Delivery)
    | Joined

  /** An event on its way out: the polled entry, the list when it was checked, and what it says. */
  datatype Delivery = Delivery(uid: Uid, kind: Kind, entry: nat, seen: seq<Monitor>, checked: seq<Monitor>)

  datatype State = State(monitors: seq<Monitor>, thresholds: set<Kind>, loop: Loop, stopping: bool, events: seq<Delivery>)

  const Start := State([], {}, NotStarted, false, [])

  datatype Event =
    | SetThreshold(kind: Kind)
    | AddMonitor(uid: Uid, kind: Kind, file: Option<Fd>)
    | RemoveMonitor(uid: Uid, kind: Kind)
    | StartLoop
    | TakeSnapshot
    | CheckEntry(entry: nat)
    | Emit(readable: bool)
    | CloseDone
    | LeaveLoop
    | ClearList

  /** An event whose guard does not hold leaves the state alone. */
  function Step(s: State, e: Event): State {
    match e
    case SetThreshold(k) => s.(thresholds := s.thresholds + {k})
    case AddMonitor(uid, k, file) => s.(monitors := Add(s.monitors, k in s.thresholds, uid, k, file))
    case RemoveMonitor(uid, k) => s.(monitors := Remove(s.monitors, uid, k))
    case StartLoop => if s.loop.NotStarted? then s.(loop := Top) else s
    case TakeSnapshot =>
      if s.loop.Top? || s.loop.Polled?
      then s.(loop := Polled(PollFds(s.monitors), FdIndex(s.monitors), s.monitors)) else s
    case CheckEntry(i) =>
      if !s.loop.Polled? || i >= |s.loop.fds| then s
      else
        (match Resolved(s.monitors, s.loop.fds[i], s.loop.index)
         case None => s
         case Some(m) =>
           s.(loop := Resolving(s.loop.fds, s.loop.index, s.loop.seen,
                                Delivery(m.uid, m.kind, i, s.loop.seen, s.monitors))))
    case Emit(readable) =>
      if !s.loop.Resolving? then s
      else s.(loop := Polled(s.loop.fds, s.loop.index, s.loop.seen),
              events := if readable then s.events + [s.loop.found] else s.events)
    case CloseDone => s.(stopping := true)
    case LeaveLoop => if s.stopping && (s.loop.Top? || s.loop.Polled?) then s.(loop := Joined) else s
    case ClearList => if s.stopping && (s.loop.Joined? || s.loop.NotStarted?) then s.(monitors := []) else s
  }

  function Run(es: seq<Event>): State {
    if es == [] then Start else Step(Run(es[..|es| - 1]), es[|es| - 1])
  }

  /** The system never hands out a descriptor number that is still open. */
  ghost predicate FreshDescriptors(es: seq<Event>) {
    forall n | 0 <= n < |es| && es[n].AddMonitor? && es[n].file.Some? :: Unused(Run(es[..n]).monitors, es[n].file.value)
  }

  ghost predicate Unused(ms: seq<Monitor>, fd: Fd) {
    forall m | m in ms && m.active :: m.fd != fd
  }

  // ------------------------------------------------------- invariants

  ghost predicate DistinctFds(ms: seq<Monitor>) {
    forall i, j | 0 <= i < j < |ms| && ms[i].active && ms[j].active :: ms[i].fd != ms[j].fd
  }

  ghost predicate DistinctKeys(ms: seq<Monitor>) {
    forall i, j | 0 <= i < j < |ms| && ms[i].active && ms[j].active :: ms[i].uid != ms[j].uid || ms[i].kind != ms[j].kind
  }

  /** The list has only grown since `earlier`, and no monitor came back to life. */
  ghost predicate Grown(earlier: seq<Monitor>, ms: seq<Monitor>) {
    && |earlier| <= |ms|
    && forall i | 0 <= i < |earlier| :: ms[i] == earlier[i] || ms[i] == earlier[i].(active := false)
  }

  /** The event carries the monitor of the polled entry, which was active when checked under the lock. */
  ghost predicate Attributed(d: Delivery) {
    && d.entry < |Entries(d.seen)| && d.entry < |PollFds(d.seen)|
    && var p := Entries(d.seen)[d.entry];
       && p < |d.checked| && d.checked[p] == d.seen[p] && d.checked[p].active
       && d.uid == d.seen[p].uid && d.kind == d.seen[p].kind
       && d.seen[p].fd == PollFds(d.seen)[d.entry]
  }

  ghost predicate Invariant(s: State) {
    && DistinctFds(s.monitors) && DistinctKeys(s.monitors)
    && (s.loop.Polled? || s.loop.Resolving? ==>
          && DistinctFds(s.loop.seen) && Grown(s.loop.seen, s.monitors)
          && s.loop.fds == PollFds(s.loop.seen) && s.loop.index == FdIndex(s.loop.seen))
    && (s.loop.Resolving? ==> Attributed(s.loop.found))
    && (forall d | d in s.events :: Attributed(d))
  }

  lemma {:induction false} SnapshotShape(ms: seq<Monitor>)
    ensures |PollFds(ms)| == |Entries(ms)|
    ensures forall i | 0 <= i < |PollFds(ms)| :: PollFds(ms)[i] == ms[Entries(ms)[i]].fd
    ensures forall fd | fd in FdIndex(ms) ::
              FdIndex(ms)[fd] < |ms| && ms[FdIndex(ms)[fd]].active && ms[FdIndex(ms)[fd]].fd == fd
    ensures forall i | 0 <= i < |ms| && ms[i].active :: ms[i].fd in FdIndex(ms)
  {
    if ms != [] {
      SnapshotShape(ms[..|ms| - 1]);
    }
  }

  /** Under distinct descriptors `fdIndex` leads from a polled entry back to its monitor. */
  lemma EntryResolves(ms: seq<Monitor>, i: nat)
    requires DistinctFds(ms) && i < |PollFds(ms)|
    ensures i < |Entries(ms)|
    ensures PollFds(ms)[i] in FdIndex(ms) && FdIndex(ms)[PollFds(ms)[i]] == Entries(ms)[i]
  {
    SnapshotShape(ms);
    var p := Entries(ms)[i];
    assert ms[p].fd == PollFds(ms)[i];
  }

  lemma AddKeeps(s: State, e: Event)
    requires Invariant(s) && e.AddMonitor? && (e.file.Some? ==> Unused(s.monitors, e.file.value))
    ensures Invariant(Step(s, e))
  {
    var ms := Step(s, e).monitors;
    if |ms| > |s.monitors| {
      forall i | 0 <= i < |s.monitors| && s.monitors[i].active
        ensures ms[i].fd != ms[|ms| - 1].fd && !Watches(ms[i], e.uid, e.kind)
      {
        assert s.monitors[i] in s.monitors;
      }
    }
  }

  lemma CheckKeeps(s: State, i: nat)
    requires Invariant(s)
    ensures Invariant(Step(s, CheckEntry(i)))
  {
    if s.loop.Polled? && i < |s.loop.fds| {
      EntryResolves(s.loop.seen, i);
      SnapshotShape(s.loop.seen);
    }
  }

  lemma StepKeepsInvariant(s: State, e: Event)
    requires Invariant(s)
    requires e.AddMonitor? && e.file.Some? ==> Unused(s.monitors, e.file.value)
    ensures Invariant(Step(s, e))
  {
    match e
    case AddMonitor(_, _, _) => AddKeeps(s, e);
    case CheckEntry(i) => CheckKeeps(s, i);
    case _ =>
  }

  lemma {:induction false} RunKeepsInvariant(es: seq<Event>)
    requires FreshDescriptors(es)
    ensures Invariant(Run(es))
  {
    if es != [] {
      var before := es[..|es| - 1];
      forall n | 0 <= n < |before| ensures before[..n] == es[..n] {}
      RunKeepsInvariant(before);
      StepKeepsInvariant(Run(before), es[|es| - 1]);
    }
  }

  /** Every delivered event is about the monitor that was polled, however descriptors are reused. */
  lemma EventsAreAttributed(es: seq<Event>, d: Delivery)
    requires FreshDescriptors(es) && d in Run(es).events
    ensures Attributed(d)
  {
    RunKeepsInvariant(es);
  }

  /** At any time there is at most one active monitor for a user and a kind. */
  lemma OneMonitorPerKey(es: seq<Event>, i: nat, j: nat, uid: Uid, kind: Kind)
    requires FreshDescriptors(es)
    requires i < |Run(es).monitors| && j < |Run(es).monitors|
    requires Watches(Run(es).monitors[i], uid, kind) && Watches(Run(es).monitors[j], uid, kind)
    ensures i == j
  {
    RunKeepsInvariant(es);
  }

  // ------------------------------------------------------- what the manager sees

  function WatchedUsers(ms: seq<Monitor>, kind: Kind): set<Uid> {
    set m | m in ms && m.active && m.kind == kind :: m.uid
  }

  lemma WatchedUser(ms: seq<Monitor>, uid: Uid, kind: Kind)
    ensures uid in WatchedUsers(ms, kind) <==> Watched(ms, uid, kind)
  {
  }

  /** A user is watched from then on exactly if it was, or if the type has a threshold and the file could be opened. */
  lemma AddWatchesIff(ms: seq<Monitor>, hasThreshold: bool, uid: Uid, kind: Kind, file: Option<Fd>, u: Uid, k: Kind)
    ensures var after := Add(ms, hasThreshold, uid, kind, file);
            && (Watched(after, u, k)
                <==> Watched(ms, u, k) || (u == uid && k == kind && hasThreshold && file.Some?))
            && (!Watched(ms, uid, kind) && hasThreshold && file.Some? ==>
                  exists m | m in after :: Watches(m, uid, kind) && m.fd == file.value)
            && forall m | m in after && m !in ms :: m.uid == uid && m.kind == kind && file == Some(m.fd)
  {
    var after := Add(ms, hasThreshold, uid, kind, file);
    if Watched(ms, u, k) {
      var m :| m in ms && Watches(m, u, k);
      assert m in after;
    }
    if |after| > |ms| {
      assert after[|ms|] in after && Watches(after[|ms|], uid, kind);
    }
  }

  /** To the manager this adds the user to the users watched for this type, or nothing. */
  lemma AddWatches(ms: seq<Monitor>, hasThreshold: bool, uid: Uid, kind: Kind, file: Option<Fd>, k: Kind)
    ensures WatchedUsers(Add(ms, hasThreshold, uid, kind, file), k)
         == if k == kind && hasThreshold && file.Some? then WatchedUsers(ms, k) + {uid} else WatchedUsers(ms, k)
  {
    var after := Add(ms, hasThreshold, uid, kind, file);
    forall u
      ensures u in WatchedUsers(after, k)
         <==> u in WatchedUsers(ms, k) || (u == uid && k == kind && hasThreshold && file.Some?)
    {
      AddWatchesIff(ms, hasThreshold, uid, kind, file, u, k);
      WatchedUser(after, u, k);
      WatchedUser(ms, u, k);
    }
  }

  /** RemoveMonitor ends the watching of exactly this user and kind. */
  lemma RemoveUnwatches(ms: seq<Monitor>, uid: Uid, kind: Kind, k: Kind)
    ensures WatchedUsers(Remove(ms, uid, kind), k) == if k == kind then WatchedUsers(ms, k) - {uid} else WatchedUsers(ms, k)
  {
    var after := Remove(ms, uid, kind);
    forall u ensures Watched(after, u, k) <==> Watched(ms, u, k) && !(u == uid && k == kind) {
      if Watched(after, u, k) {
        var i :| 0 <= i < |after| && Watches(after[i], u, k);
        assert ms[i] in ms && Watches(ms[i], u, k);
      }
      if Watched(ms, u, k) && !(u == uid && k == kind) {
        var i :| 0 <= i < |ms| && Watches(ms[i], u, k);
        assert after[i] in after && Watches(after[i], u, k);
      }
    }
    forall u
      ensures u in WatchedUsers(after, k) <==> Watched(after, u, k)
      ensures u in WatchedUsers(ms, k) <==> Watched(ms, u, k)
    {
      WatchedUser(after, u, k);
      WatchedUser(ms, u, k);
    }
  }

  // ------------------------------------------------------- over runs

  /** The watcher was told to stop, and its loop is not running. */
  predicate Stopped(s: State) { s.stopping && (s.loop.NotStarted? || s.loop.Joined?) }

  /** The users whose file of that type was opened with a threshold set, and not given up since. */
  function Asked(es: seq<Event>, kind: Kind): set<Uid> {
    if es == [] then {}
    else
      var earlier := es[..|es| - 1];
      var before := Asked(earlier, kind);
      match es[|es| - 1]
      case AddMonitor(uid, k, file) =>
        if k == kind && SetThreshold(kind) in earlier && file.Some? then before + {uid} else before
      case RemoveMonitor(uid, k) => if k == kind then before - {uid} else before
      case ClearList => if Stopped(Run(earlier)) then {} else before
      case _ => before
  }

  lemma {:induction false} ThresholdsAre(es: seq<Event>, kind: Kind)
    ensures kind in Run(es).thresholds <==> SetThreshold(kind) in es
  {
    if es != [] {
      assert es == es[..|es| - 1] + [es[|es| - 1]];
      ThresholdsAre(es[..|es| - 1], kind);
    }
  }

  /** In every run the watched users of a type are exactly those. */
  lemma {:induction false} WatchedIs(es: seq<Event>, kind: Kind)
    ensures WatchedUsers(Run(es).monitors, kind) == Asked(es, kind)
  {
    if es != [] {
      var before, e := es[..|es| - 1], es[|es| - 1];
      WatchedIs(before, kind);
      hide Add, Remove, WatchedUsers, PollFds, FdIndex, Resolved;
      match e {
        case AddMonitor(uid, k, file) =>
          ThresholdsAre(before, k);
          AddWatches(Run(before).monitors, k in Run(before).thresholds, uid, k, file, kind);
        case RemoveMonitor(uid, k) => RemoveUnwatches(Run(before).monitors, uid, k, kind);
        case ClearList => NobodyIsWatched(kind);
        case _ =>
      }
    }
  }

  lemma NobodyIsWatched(kind: Kind)
    ensures WatchedUsers([], kind) == {}
  {
  }

  // ------------------------------------------------------- stopping

  lemma StopSteps(s: State)
    ensures Step(Step(Step(Step(s, CloseDone), Emit(false)), LeaveLoop), ClearList).monitors == []
    ensures s.loop.Top? || s.loop.Polled? || s.loop.Resolving? ==> Step(s, ClearList) == s
  {
  }

  lemma RunStep(es: seq<Event>, e: Event)
    ensures Run(es + [e]) == Step(Run(es), e)
  {
    assert (es + [e])[..|es|] == es;
  }

  /** The list is emptied once the watcher was told to stop and its loop has left, and not while the loop runs. */
  lemma StopEnds(es: seq<Event>)
    ensures Run(es + [CloseDone] + [Emit(false)] + [LeaveLoop] + [ClearList]).monitors == []
    ensures Run(es).loop.Top? || Run(es).loop.Polled? || Run(es).loop.Resolving? ==>
              Run(es + [ClearList]) == Run(es)
  {
    StopSteps(Run(es));
    hide Run, Step;
    RunStep(es, CloseDone);
    RunStep(es + [CloseDone], Emit(false));
    RunStep(es + [CloseDone] + [Emit(false)], LeaveLoop);
    RunStep(es + [CloseDone] + [Emit(false)] + [LeaveLoop], ClearList);
    RunStep(es, ClearList);
  }

  // ------------------------------------------------------- nothing is missed

  /** A snapshot polls every active monitor once, in list order, and no other. */
  lemma {:induction false} PolledIff(ms: seq<Monitor>, p: nat)
    ensures p < |ms| && ms[p].active <==> p in Entries(ms)
    ensures forall i, j | 0 <= i < j < |Entries(ms)| :: Entries(ms)[i] < Entries(ms)[j]
    ensures |PollFds(ms)| == |Entries(ms)|
  {
    if ms != [] {
      PolledIff(ms[..|ms| - 1], p);
    }
  }

  /** A polled entry that turns out readable is delivered exactly if its monitor is still active when checked. */
  lemma EntryIsDelivered(es: seq<Event>, i: nat, readable: bool)
    requires FreshDescriptors(es) && Run(es).loop.Polled? && i < |Run(es).loop.fds|
    ensures var s := Run(es);
            var after := Step(Step(s, CheckEntry(i)), Emit(readable));
            i < |Entries(s.loop.seen)|
            && var p := Entries(s.loop.seen)[i];
               && p < |s.monitors|
               && after.events == s.events + if readable && s.monitors[p].active
                                             then [Delivery(s.loop.seen[p].uid, s.loop.seen[p].kind, i, s.loop.seen, s.monitors)]
                                             else []
  {
    RunKeepsInvariant(es);
    CheckDelivers(Run(es), i, readable);
  }

  lemma CheckDelivers(s: State, i: nat, readable: bool)
    requires Invariant(s) && s.loop.Polled? && i < |s.loop.fds|
    ensures i < |Entries(s.loop.seen)| && Entries(s.loop.seen)[i] < |s.monitors|
    ensures var p := Entries(s.loop.seen)[i];
            Step(Step(s, CheckEntry(i)), Emit(readable)).events
            == s.events + if readable && s.monitors[p].active
                          then [Delivery(s.loop.seen[p].uid, s.loop.seen[p].kind, i, s.loop.seen, s.monitors)] else []
  {
    CheckFinds(s, i);
    hide Invariant, Entries, PollFds, FdIndex, Resolved;
    var p := Entries(s.loop.seen)[i];
    if s.monitors[p].active {
      Emitted(Step(s, CheckEntry(i)), readable);
      hide Step;
      assert s.events + [] == s.events;
    } else {
      assert s.events + [] == s.events;
    }
  }

  lemma Emitted(s: State, readable: bool)
    requires s.loop.Resolving?
    ensures Step(s, Emit(readable)).events == if readable then s.events + [s.loop.found] else s.events
  {
  }

  lemma CheckFinds(s: State, i: nat)
    requires Invariant(s) && s.loop.Polled? && i < |s.loop.fds|
    ensures i < |Entries(s.loop.seen)| && Entries(s.loop.seen)[i] < |s.monitors|
    ensures var p := Entries(s.loop.seen)[i];
            Step(s, CheckEntry(i))
            == if !s.monitors[p].active then s
               else s.(loop := Resolving(s.loop.fds, s.loop.index, s.loop.seen,
                                         Delivery(s.loop.seen[p].uid, s.loop.seen[p].kind, i, s.loop.seen, s.monitors)))
  {
    EntryResolves(s.loop.seen, i);
    SnapshotShape(s.loop.seen);
    hide DistinctFds, DistinctKeys, FdIndex, PollFds, Entries, Attributed;
  }
}
