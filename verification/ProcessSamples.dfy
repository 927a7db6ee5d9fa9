/**
  The collector's per-process CPU samples, from which percentages are computed between two
  scans, and the exponential moving average per user.
*/
module ProcessSamples {
  import opened Common

  const MAX_PROC_CACHE_SIZE := 5000

  datatype Pid = Pid(number: int)

  /** CPU seconds used so far, in user and in system mode. */
  datatype Times = Times(user: real, system: real)

  function TotalOf(t: Times): real { t.user + t.system }

  /** `prevProcCPU` and `prevProcTime`. */
  datatype Samples = Samples(cpu: map<Pid, Times>, time: map<Pid, int>)

  /** There is an earlier sample and time has passed since. */
  predicate Comparable(s: Samples, pid: Pid, now: int) {
    pid in s.cpu && pid in s.time && Seconds(now - s.time[pid]) > 0.0
  }

  function Percent(s: Samples, pid: Pid, times: Times, now: int): real {
    if !Comparable(s, pid, now) then 0.0
    else
      var delta := (times.user - s.cpu[pid].user) + (times.system - s.cpu[pid].system);
      delta / Seconds(now - s.time[pid]) * 100.0
  }

  /** A full cache gives up one of the longest unsampled processes. */
  ghost predicate Evicts(s: Samples, victim: Option<Pid>) {
    if |s.cpu| < MAX_PROC_CACHE_SIZE || s.time == map[] then victim.None?
    else victim.Some? && victim.value in s.time && forall p | p in s.time :: s.time[victim.value] <= s.time[p]
  }

  function Without(s: Samples, victim: Option<Pid>): Samples {
    if victim.None? then s else Samples(s.cpu - {victim.value}, s.time - {victim.value})
  }

  /** The samples after one reading; a first sample, or one without time passed, may evict. */
  function Recorded(s: Samples, pid: Pid, times: Times, now: int, victim: Option<Pid>): Samples {
    var kept := if Comparable(s, pid, now) then s else Without(s, victim);
    Samples(kept.cpu[pid := times], kept.time[pid := now])
  }

  /** The process part of `cleanupCache`. */
  function Expired(s: Samples, now: int): set<Pid> { set p | p in s.time && now - s.time[p] > MAX_AGE }

  function Expire(s: Samples, now: int): Samples { Samples(s.cpu - Expired(s, now), s.time - Expired(s, now)) }

  function Ema(values: map<Uid, real>, uid: Uid, current: real): real {
    if uid in values then 0.3 * current + (1.0 - 0.3) * values[uid] else current
  }

  class ProcCache {
    var prevProcCPU: map<Pid, Times>
    var prevProcTime: map<Pid, int>
    var emaValues: map<Uid, real>

    function View(): Samples
      reads this
    {
      Samples(prevProcCPU, prevProcTime)
    }

    constructor ()
      ensures View() == Samples(map[], map[]) && emaValues == map[]
    {
      prevProcCPU, prevProcTime, emaValues := map[], map[], map[];
    }

    method Oldest() returns (oldest: Option<Pid>)
      requires |prevProcCPU| >= MAX_PROC_CACHE_SIZE
      ensures Evicts(View(), oldest)
    {
      oldest := None;
      var oldestTime := 0;
      var todo := prevProcTime.Keys;
      while todo != {}
        invariant todo <= prevProcTime.Keys
        invariant oldest.None? ==> todo == prevProcTime.Keys
        invariant oldest.Some? ==> oldest.value in prevProcTime && prevProcTime[oldest.value] == oldestTime
        invariant oldest.Some? ==> forall p | p in prevProcTime.Keys - todo :: oldestTime <= prevProcTime[p]
        decreases todo
      {
        var pid := Next(todo);
        todo := todo - {pid};
        if oldest.None? || prevProcTime[pid] < oldestTime {
          oldestTime := prevProcTime[pid];
          oldest := Some(pid);
        }
      }
    }

    /** `stable` is `isProcessRunningLongEnough`; `reading` is None if the times cannot be read. */
    method GetProcessCPUUsage(pid: Pid, stable: bool, reading: Option<Times>, now: int)
      returns (percent: real, ghost victim: Option<Pid>)
      modifies this`prevProcCPU, this`prevProcTime
      ensures !stable || reading.None? ==> percent == 0.0 && View() == old(View())
      ensures stable && reading.Some? ==>
                && percent == Percent(old(View()), pid, reading.value, now)
                && View() == Recorded(old(View()), pid, reading.value, now, victim)
                && (!Comparable(old(View()), pid, now) ==> Evicts(old(View()), victim))
    {
      percent, victim := 0.0, None;
      if !stable || reading.None? {
        return;
      }
      var times := reading.value;
      if pid in prevProcCPU && pid in prevProcTime {
        var elapsed := Seconds(now - prevProcTime[pid]);
        if elapsed > 0.0 {
          var prev := prevProcCPU[pid];
          var delta := (times.user - prev.user) + (times.system - prev.system);
          percent := delta / elapsed * 100.0;
          prevProcCPU := prevProcCPU[pid := times];
          prevProcTime := prevProcTime[pid := now];
          return;
        }
      }
      if |prevProcCPU| >= MAX_PROC_CACHE_SIZE {
        var oldest := Oldest();
        victim := oldest;
        if oldest.Some? {
          prevProcCPU := prevProcCPU - {oldest.value};
          prevProcTime := prevProcTime - {oldest.value};
        }
      }
      prevProcCPU := prevProcCPU[pid := times];
      prevProcTime := prevProcTime[pid := now];
    }

    method CleanupCache(now: int)
      modifies this`prevProcCPU, this`prevProcTime
      ensures View() == Expire(old(View()), now)
    {
      ghost var all := View();
      var todo := prevProcTime.Keys;
      while todo != {}
        invariant todo <= prevProcTime.Keys
        invariant prevProcCPU == all.cpu - (Expired(all, now) - todo)
        invariant prevProcTime == all.time - (Expired(all, now) - todo)
        decreases todo
      {
        var pid := Next(todo);
        todo := todo - {pid};
        if now - prevProcTime[pid] > MAX_AGE {
          prevProcCPU := prevProcCPU - {pid};
          prevProcTime := prevProcTime - {pid};
        }
      }
      assert Expired(all, now) - todo == Expired(all, now);
    }

    method CalculateEMA(uid: Uid, currentValue: real) returns (ema: real)
      modifies this`emaValues
      ensures ema == Ema(old(emaValues), uid, currentValue)
      ensures emaValues == old(emaValues)[uid := ema]
    {
      if uid !in emaValues {
        emaValues := emaValues[uid := currentValue];
        return currentValue;
      }
      ema := 0.3 * currentValue + (1.0 - 0.3) * emaValues[uid];
      emaValues := emaValues[uid := ema];
    }
  }

  // ------------------------------------------------------------ runs

  datatype Event = Sample(pid: Pid, times: Times, now: int, victim: Option<Pid>) | Cleanup(now: int)

  function Step(s: Samples, e: Event): Samples {
    match e
    case Sample(pid, times, now, victim) => Recorded(s, pid, times, now, victim)
    case Cleanup(now) => Expire(s, now)
  }

  function Run(es: seq<Event>): Samples {
    if es == [] then Samples(map[], map[]) else Step(Run(es[..|es| - 1]), es[|es| - 1])
  }

  /** Every eviction in the run is one the code can make. */
  ghost predicate Faithful(es: seq<Event>) {
    forall n | 0 <= n < |es| && es[n].Sample? && !Comparable(Run(es[..n]), es[n].pid, es[n].now) ::
      Evicts(Run(es[..n]), es[n].victim)
  }

  ghost predicate Bounded(s: Samples) { s.cpu.Keys == s.time.Keys && |s.cpu.Keys| <= MAX_PROC_CACHE_SIZE }

  lemma RoomIsMade(keys: set<Pid>, victim: Option<Pid>, pid: Pid)
    requires |keys| <= MAX_PROC_CACHE_SIZE
    requires if victim.None? then |keys| < MAX_PROC_CACHE_SIZE else victim.value in keys
    ensures |(if victim.None? then keys else keys - {victim.value}) + {pid}| <= MAX_PROC_CACHE_SIZE
  {
    var kept := if victim.None? then keys else keys - {victim.value};
    assert pid in kept ==> kept + {pid} == kept;
  }

  lemma KeysAfter(s: Samples, pid: Pid, times: Times, now: int, victim: Option<Pid>)
    ensures var kept := if Comparable(s, pid, now) then s else Without(s, victim);
            && Recorded(s, pid, times, now, victim).cpu.Keys == kept.cpu.Keys + {pid}
            && Recorded(s, pid, times, now, victim).time.Keys == kept.time.Keys + {pid}
    ensures Without(s, victim).cpu.Keys == (if victim.None? then s.cpu.Keys else s.cpu.Keys - {victim.value})
    ensures Without(s, victim).time.Keys == (if victim.None? then s.time.Keys else s.time.Keys - {victim.value})
  {
    hide Comparable;
  }

  lemma RecordedIsBounded(s: Samples, pid: Pid, times: Times, now: int, victim: Option<Pid>)
    requires Bounded(s) && (Comparable(s, pid, now) || Evicts(s, victim))
    ensures Bounded(Recorded(s, pid, times, now, victim))
  {
    assert |s.cpu| == |s.cpu.Keys|;
    KeysAfter(s, pid, times, now, victim);
    if Comparable(s, pid, now) {
      assert s.cpu.Keys + {pid} == s.cpu.Keys;
    } else {
      assert s.time == map[] ==> s.time.Keys == {};
      RoomIsMade(s.cpu.Keys, victim, pid);
    }
    hide Recorded, Without, Comparable;
  }

  lemma ExpireIsBounded(s: Samples, now: int)
    requires Bounded(s)
    ensures Bounded(Expire(s, now))
  {
    assert Expire(s, now).cpu.Keys == s.cpu.Keys - Expired(s, now);
    assert Expire(s, now).time.Keys == s.time.Keys - Expired(s, now);
    SmallerSet(s.cpu.Keys - Expired(s, now), s.cpu.Keys);
  }

  /** Both maps always know the same processes, and never more than the limit. */
  lemma {:induction false} SamplesAreBounded(es: seq<Event>)
    requires Faithful(es)
    ensures Bounded(Run(es))
  {
    if es != [] {
      var n := |es| - 1;
      FaithfulBefore(es, n);
      SamplesAreBounded(es[..n]);
      hide Bounded, Recorded, Expire, Evicts, Comparable;
      assert es[..n] == es[..n];
      match es[n]
      case Sample(pid, times, now, victim) => RecordedIsBounded(Run(es[..n]), pid, times, now, victim);
      case Cleanup(now) => ExpireIsBounded(Run(es[..n]), now);
    }
  }

  lemma FaithfulBefore(es: seq<Event>, n: nat)
    requires n <= |es| && Faithful(es)
    ensures Faithful(es[..n])
  {
    hide Evicts, Comparable, Run;
    forall k | 0 <= k < n ensures es[..n][..k] == es[..k] {
    }
  }

  // ------------------------------------------------------------ what a percentage means

  datatype Taken = Taken(times: Times, at: int)

  /** A sample of the process was taken before that time. */
  predicate Earlier(last: Option<Taken>, now: int) { last.Some? && last.value.at < now }

  /** The last sample of a process, unless it was evicted or expired since. */
  function LastSample(es: seq<Event>, pid: Pid): Option<Taken> {
    if es == [] then None
    else
      var earlier := es[..|es| - 1];
      var before := LastSample(earlier, pid);
      match es[|es| - 1]
      case Sample(p, times, now, victim) =>
        if p == pid then Some(Taken(times, now))
        else if victim == Some(pid) && !Earlier(LastSample(earlier, p), now) then None
        else before
      case Cleanup(now) => if before.Some? && now - before.value.at > 300 * SECOND then None else before
  }

  lemma SecondsPass(d: int)
    ensures Seconds(d) > 0.0 <==> d > 0
  {
  }

  /** Both maps hold the last sample of the process. */
  predicate Agrees(s: Samples, pid: Pid, last: Option<Taken>) {
    && (pid in s.cpu <==> last.Some?) && (pid in s.time <==> last.Some?)
    && (last.Some? ==> s.cpu[pid] == last.value.times && s.time[pid] == last.value.at)
  }

  lemma ComparableIff(s: Samples, pid: Pid, last: Option<Taken>, now: int)
    requires Agrees(s, pid, last)
    ensures Comparable(s, pid, now) <==> Earlier(last, now)
  {
    if pid in s.time {
      SecondsPass(now - s.time[pid]);
    }
    hide Seconds;
  }

  /** In every run both maps hold exactly that. */
  lemma {:induction false} LastSampleIs(es: seq<Event>, pid: Pid)
    ensures Agrees(Run(es), pid, LastSample(es, pid))
  {
    if es != [] {
      var before, e := es[..|es| - 1], es[|es| - 1];
      LastSampleIs(before, pid);
      if e.Sample? {
        LastSampleIs(before, e.pid);
        ComparableIff(Run(before), e.pid, LastSample(before, e.pid), e.now);
      }
      hide Comparable, Earlier;
    }
  }

  /**
    In every run the percentage is what the process used since its last sample, per elapsed
    time; it is zero without a sample or without time passed.
  */
  lemma PercentIs(es: seq<Event>, pid: Pid, times: Times, now: int)
    ensures var last, percent := LastSample(es, pid), Percent(Run(es), pid, times, now);
            if Earlier(last, now)
            then percent * Seconds(now - last.value.at) == 100.0 * (TotalOf(times) - TotalOf(last.value.times))
            else percent == 0.0
  {
    LastSampleIs(es, pid);
    ComparableIff(Run(es), pid, LastSample(es, pid), now);
    if Earlier(LastSample(es, pid), now) {
      CreditIs(Run(es), pid, times, now);
    }
    hide Run, LastSample, Percent, Seconds;
  }

  /**
    A sample evicts exactly if it is no second one of its process and five thousand are known;
    what is evicted was sampled no later than anything that stays.
  */
  lemma OldestGoes(es: seq<Event>, pid: Pid, times: Times, now: int, victim: Option<Pid>)
    requires Faithful(es + [Sample(pid, times, now, victim)]) && !Earlier(LastSample(es, pid), now)
    ensures var s := Run(es);
            && (victim.Some? <==> |s.cpu| >= 5000)
            && (victim.Some? ==> victim.value in s.time && forall p | p in s.time :: s.time[victim.value] <= s.time[p])
  {
    var all := es + [Sample(pid, times, now, victim)];
    assert all[|es|] == Sample(pid, times, now, victim) && all[..|es|] == es;
    LastSampleIs(es, pid);
    ComparableIff(Run(es), pid, LastSample(es, pid), now);
    assert Evicts(Run(es), victim);
    FaithfulBefore(all, |es|);
    SamplesAreBounded(es);
    assert |Run(es).cpu| == |Run(es).cpu.Keys|;
    hide Run, LastSample, Comparable;
  }

  // ------------------------------------------------------------ nothing is counted twice

  /** What the percentages add up to for a process since it was last entered, in percent times seconds. */
  function Earned(es: seq<Event>, pid: Pid): real {
    if es == [] then 0.0
    else
      var n := |es| - 1;
      var before := Run(es[..n]);
      if pid !in Run(es).cpu then 0.0
      else if es[n].Sample? && es[n].pid == pid then
        if Stays(before, es[n], pid)
        then Earned(es[..n], pid) + (if Comparable(before, pid, es[n].now)
                                     then Percent(before, pid, es[n].times, es[n].now) * Seconds(es[n].now - before.time[pid])
                                     else 0.0)
        else 0.0
      else Earned(es[..n], pid)
  }

  /** The process has a sample that this step does not throw away first. */
  predicate Stays(s: Samples, e: Event, pid: Pid) {
    pid in s.cpu && pid in s.time && (e.Sample? && !Comparable(s, e.pid, e.now) ==> e.victim != Some(pid))
  }

  /** The CPU seconds a process had used when it was last entered. */
  function Entered(es: seq<Event>, pid: Pid): real {
    if es == [] then 0.0
    else
      var n := |es| - 1;
      if es[n].Sample? && es[n].pid == pid && !Stays(Run(es[..n]), es[n], pid) then TotalOf(es[n].times)
      else Entered(es[..n], pid)
  }

  /** The growth swallowed by samples at which no time had passed. */
  function Swallowed(es: seq<Event>, pid: Pid): real {
    if es == [] then 0.0
    else
      var n := |es| - 1;
      var before := Run(es[..n]);
      if es[n].Sample? && es[n].pid == pid then
        if !Stays(before, es[n], pid) then 0.0
        else if Comparable(before, pid, es[n].now) then Swallowed(es[..n], pid)
        else Swallowed(es[..n], pid) + TotalOf(es[n].times) - TotalOf(before.cpu[pid])
      else Swallowed(es[..n], pid)
  }

  lemma PercentTimesElapsed(delta: real, elapsed: real)
    requires elapsed > 0.0
    ensures delta / elapsed * 100.0 * elapsed == 100.0 * delta
  {
    assert delta / elapsed * elapsed == delta;
  }

  lemma CreditIs(s: Samples, pid: Pid, times: Times, now: int)
    requires Comparable(s, pid, now)
    ensures Percent(s, pid, times, now) * Seconds(now - s.time[pid]) == 100.0 * (TotalOf(times) - TotalOf(s.cpu[pid]))
  {
    var delta := (times.user - s.cpu[pid].user) + (times.system - s.cpu[pid].system);
    PercentTimesElapsed(delta, Seconds(now - s.time[pid]));
  }

  /**
    For as long as a process keeps its sample, the percentages times the time between them
    add up to 100 times the growth of its CPU time, less what was swallowed.
  */
  lemma {:induction false} PercentagesTelescope(es: seq<Event>, pid: Pid)
    requires pid in Run(es).cpu
    ensures Earned(es, pid) == 100.0 * (TotalOf(Run(es).cpu[pid]) - Entered(es, pid) - Swallowed(es, pid))
  {
    var n := |es| - 1;
    var before, e := Run(es[..n]), es[n];
    hide Percent, Seconds, TotalOf, Evicts, Expire;
    if e.Sample? && e.pid == pid {
      hide Comparable;
      if Stays(before, e, pid) {
        PercentagesTelescope(es[..n], pid);
        if Comparable(before, pid, e.now) {
          CreditIs(before, pid, e.times, e.now);
        }
      }
    } else {
      OtherStepsKeep(before, e, pid);
      PercentagesTelescope(es[..n], pid);
    }
  }

  /** A step about other processes keeps the sample or drops it, but never changes it. */
  lemma OtherStepsKeep(s: Samples, e: Event, pid: Pid)
    requires !(e.Sample? && e.pid == pid) && pid in Step(s, e).cpu
    ensures pid in s.cpu && Step(s, e).cpu[pid] == s.cpu[pid]
  {
    hide Comparable, Expired;
  }

  /** Nothing is swallowed if the clock moves on between two samples of the process. */
  lemma {:induction false} NothingSwallowed(es: seq<Event>, pid: Pid)
    requires forall n | 0 <= n < |es| && es[n].Sample? && es[n].pid == pid && pid in Run(es[..n]).time ::
               es[n].now > Run(es[..n]).time[pid]
    ensures Swallowed(es, pid) == 0.0
  {
    if es != [] {
      var n := |es| - 1;
      forall k | 0 <= k < n ensures es[..n][..k] == es[..k] {
      }
      NothingSwallowed(es[..n], pid);
    }
  }

  // ------------------------------------------------------------ the moving average

  /** The average of a user after these scans, oldest first. */
  function EmaOf(xs: seq<real>): real
    requires xs != []
  {
    if |xs| == 1 then xs[0] else 0.3 * xs[|xs| - 1] + (1.0 - 0.3) * EmaOf(xs[..|xs| - 1])
  }

  function Power(b: real, n: nat): real { if n == 0 then 1.0 else b * Power(b, n - 1) }

  datatype Reading = Reading(uid: Uid, value: real)

  function EmaRun(rs: seq<Reading>): map<Uid, real> {
    if rs == [] then map[]
    else
      var before, r := EmaRun(rs[..|rs| - 1]), rs[|rs| - 1];
      before[r.uid := Ema(before, r.uid, r.value)]
  }

  function ReadingsOf(rs: seq<Reading>, uid: Uid): seq<real> {
    if rs == [] then []
    else ReadingsOf(rs[..|rs| - 1], uid) + if rs[|rs| - 1].uid == uid then [rs[|rs| - 1].value] else []
  }

  /** Each user's average depends on its own readings only. */
  lemma {:induction false} EmaIsPerUser(rs: seq<Reading>, uid: Uid)
    ensures uid in EmaRun(rs) <==> ReadingsOf(rs, uid) != []
    ensures uid in EmaRun(rs) ==> EmaRun(rs)[uid] == EmaOf(ReadingsOf(rs, uid))
  {
    if rs != [] {
      var before, r := rs[..|rs| - 1], rs[|rs| - 1];
      EmaIsPerUser(before, uid);
      if r.uid == uid {
        var xs := ReadingsOf(before, uid);
        assert (xs + [r.value])[..|xs|] == xs;
      } else {
        assert ReadingsOf(rs, uid) == ReadingsOf(before, uid);
      }
    }
  }

  /** The average never leaves the range of its readings. */
  lemma {:induction false} EmaStaysInRange(xs: seq<real>, lo: real, hi: real)
    requires xs != [] && forall i | 0 <= i < |xs| :: lo <= xs[i] <= hi
    ensures lo <= EmaOf(xs) <= hi
  {
    if |xs| > 1 {
      EmaStaysInRange(xs[..|xs| - 1], lo, hi);
    }
  }

  /** After a change to a constant reading the distance from it shrinks by 0.7 with every scan. */
  lemma {:induction false} EmaConverges(xs: seq<real>, c: real, k: nat)
    requires xs != []
    ensures EmaOf(xs + seq(k, _ => c)) - c == Power(0.7, k) * (EmaOf(xs) - c)
  {
    if k == 0 {
      assert xs + seq(k, _ => c) == xs;
    } else {
      var ys := xs + seq(k, _ => c);
      assert ys[..|ys| - 1] == xs + seq(k - 1, _ => c);
      EmaConverges(xs, c, k - 1);
      Scale(Power(0.7, k - 1), EmaOf(xs) - c);
    }
  }

  lemma Scale(p: real, d: real)
    ensures 0.7 * (p * d) == 0.7 * p * d
  {
  }
}
