/**
  The workload pattern detector: one running mean of the CPU usage for every hour of the
  day, and a classification from their weighted variance.
*/
module PatternDetector {
  import opened Common

  const HOURS := 24

  datatype Sample = Sample(hour: nat, cpu: real, at: int)

  predicate Timed(s: Sample) { s.hour < HOURS }

  datatype Stats = Stats(cpu: seq<real>, count: seq<nat>, total: nat, last: Instant)

  predicate Sized(s: Stats) { |s.cpu| == HOURS && |s.count| == HOURS }

  function NoStats(): (s: Stats)
    ensures Sized(s)
  {
    Stats(seq(HOURS, _ => 0.0), seq(HOURS, _ => 0), 0, None)
  }

  function Fed(s: Stats, x: Sample): (r: Stats)
    requires Sized(s) && Timed(x)
    ensures Sized(r)
  {
    var n := s.count[x.hour];
    Stats(s.cpu[x.hour := (s.cpu[x.hour] * n as real + x.cpu) / (n + 1) as real],
          s.count[x.hour := n + 1], s.total + 1, Some(x.at))
  }

  ghost predicate AllTimed(xs: seq<Sample>) { forall x | x in xs :: Timed(x) }

  /** The statistics after a series of samples. */
  ghost function StatsOf(xs: seq<Sample>): (s: Stats)
    requires AllTimed(xs)
    ensures Sized(s)
  {
    if xs == [] then NoStats() else Fed(StatsOf(xs[..|xs| - 1]), xs[|xs| - 1])
  }

  // ------------------------------------------------------------ averages

  /** A mean counted for all its samples. */
  function Mass(mean: real, n: nat): real { mean * n as real }

  /** The squared distance of a mean from another, counted for all its samples. */
  function Pull(own: real, mean: real, n: nat): real { (own - mean) * (own - mean) * n as real }

  function Weighted(cpu: seq<real>, count: seq<nat>, k: nat): real
    requires k <= |cpu| && k <= |count|
  {
    if k == 0 then 0.0 else Weighted(cpu, count, k - 1) + Mass(cpu[k - 1], count[k - 1])
  }

  function Weight(count: seq<nat>, k: nat): nat
    requires k <= |count|
  {
    if k == 0 then 0 else Weight(count, k - 1) + count[k - 1]
  }

  function Spread(cpu: seq<real>, count: seq<nat>, mean: real, k: nat): real
    requires k <= |cpu| && k <= |count|
  {
    if k == 0 then 0.0
    else Spread(cpu, count, mean, k - 1) + Pull(cpu[k - 1], mean, count[k - 1])
  }

  function OverallAverage(s: Stats): real
    requires Sized(s)
  {
    if Weight(s.count, HOURS) == 0 then 0.0 else Weighted(s.cpu, s.count, HOURS) / Weight(s.count, HOURS) as real
  }

  function Variance(s: Stats): real
    requires Sized(s)
  {
    var mean := OverallAverage(s);
    if mean == 0.0 || Weight(s.count, HOURS) == 0 then 0.0
    else Spread(s.cpu, s.count, mean, HOURS) / Weight(s.count, HOURS) as real
  }

  /** The values at those hours that exist. */
  function SumAt(values: seq<real>, hours: seq<int>): real {
    if hours == [] then 0.0
    else
      var h := hours[|hours| - 1];
      SumAt(values, hours[..|hours| - 1]) + if 0 <= h < |values| then values[h] else 0.0
  }

  function CountAt(values: seq<real>, hours: seq<int>): nat {
    if hours == [] then 0
    else
      var h := hours[|hours| - 1];
      CountAt(values, hours[..|hours| - 1]) + if 0 <= h < |values| then 1 else 0
  }

  function Average(values: seq<real>, hours: seq<int>): real {
    if CountAt(values, hours) == 0 then 0.0 else SumAt(values, hours) / CountAt(values, hours) as real
  }

  // ------------------------------------------------------------ classification

  datatype Pattern = Unknown | BatchNight | InteractiveDay | Mixed | AlwaysOn | Sporadic

  datatype Result = Result(pattern: Pattern, confidence: real)

  function Min(a: real, b: real): real { if a < b then a else b }

  /** The decision table over the night to day ratio, the normalized variance and the overall average. */
  function Table(ratio: real, variance: real, overall: real): Result {
    if ratio > 1.5 && variance > 0.4 then
      Result(BatchNight, Min(ratio / 3.0 * 0.6 + variance * 0.4, 1.0))
    else if ratio < 0.5 && variance < 0.3 && overall > 5.0 then
      Result(InteractiveDay, Min((1.0 - ratio) * 0.5 + (1.0 - variance) * 0.5, 1.0))
    else if variance > 0.5 && ratio > 0.8 && ratio < 1.2 then
      Result(Mixed, Min(variance, 1.0))
    else if variance < 0.2 && overall > 10.0 then
      Result(AlwaysOn, Min(1.0 - variance, 1.0))
    else if overall < 5.0 && variance > 0.6 then
      Result(Sporadic, Min(variance * 0.7 + (1.0 - overall / 5.0) * 0.3, 1.0))
    else Result(Unknown, 0.0)
  }

  const NIGHT := [22, 23, 0, 1, 2, 3, 4, 5, 6]

  const DAY := [8, 9, 10, 11, 12, 13, 14, 15, 16, 17]

  function Classify(s: Stats, threshold: real): Result
    requires Sized(s)
  {
    var night, day := Average(s.cpu, NIGHT), Average(s.cpu, DAY);
    var r := Table(if day > 0.0 then night / day else 0.0, Min(Variance(s) / 50.0, 1.0), OverallAverage(s));
    if r.confidence < threshold then Result(Unknown, 0.0) else r
  }

  function Analyzed(s: Stats, minSamples: int, threshold: real): Result
    requires Sized(s)
  {
    if s.total < minSamples then Result(Unknown, 0.0) else Classify(s, threshold)
  }

  // ------------------------------------------------------------ the detector

  class UserHourlyStats {
    var hourlyCPU: seq<real>
    var hourlyCount: seq<nat>
    var totalSamples: nat
    var lastSample: Instant

    function View(): Stats
      reads this
    {
      Stats(hourlyCPU, hourlyCount, totalSamples, lastSample)
    }

    constructor ()
      ensures View() == NoStats()
    {
      hourlyCPU, hourlyCount, totalSamples, lastSample := seq(HOURS, _ => 0.0), seq(HOURS, _ => 0), 0, None;
    }

    method Add(x: Sample)
      requires Sized(View()) && Timed(x)
      modifies this
      ensures View() == Fed(old(View()), x)
    {
      var hour := x.hour;
      var n := hourlyCount[hour];
      hourlyCPU := hourlyCPU[hour := (hourlyCPU[hour] * n as real + x.cpu) / (n + 1) as real];
      hourlyCount := hourlyCount[hour := n + 1];
      totalSamples := totalSamples + 1;
      lastSample := Some(x.at);
      assert hourlyCPU[hour] == Fed(old(View()), x).cpu[hour];
    }

    static method MeanOf(values: seq<real>, hours: seq<int>) returns (mean: real)
      ensures mean == Average(values, hours)
    {
      var sum, count := 0.0, 0;
      for k := 0 to |hours|
        invariant sum == SumAt(values, hours[..k]) && count == CountAt(values, hours[..k])
      {
        assert hours[..k + 1][..k] == hours[..k];
        var h := hours[k];
        if 0 <= h < |values| {
          sum := sum + values[h];
          count := count + 1;
        }
      }
      assert hours[..|hours|] == hours;
      if count == 0 {
        return 0.0;
      }
      return sum / count as real;
    }

    method MeanOfAll() returns (mean: real)
      requires Sized(View())
      ensures mean == OverallAverage(View())
    {
      var totalSum, totalCount := 0.0, 0;
      for i := 0 to HOURS
        invariant totalSum == Weighted(hourlyCPU, hourlyCount, i) && totalCount == Weight(hourlyCount, i)
      {
        totalSum := totalSum + hourlyCPU[i] * hourlyCount[i] as real;
        totalCount := totalCount + hourlyCount[i];
      }
      if totalCount == 0 {
        return 0.0;
      }
      return totalSum / totalCount as real;
    }

    method CalculateVariance() returns (variance: real)
      requires Sized(View())
      ensures variance == Variance(View())
    {
      var mean := MeanOfAll();
      if mean == 0.0 {
        return 0.0;
      }
      var totalWeight, sumSquaredDiff := 0, 0.0;
      for i := 0 to HOURS
        invariant sumSquaredDiff == Spread(hourlyCPU, hourlyCount, mean, i) && totalWeight == Weight(hourlyCount, i)
      {
        if hourlyCount[i] > 0 {
          var diff := hourlyCPU[i] - mean;
          sumSquaredDiff := sumSquaredDiff + diff * diff * hourlyCount[i] as real;
          totalWeight := totalWeight + hourlyCount[i];
        }
      }
      if totalWeight == 0 {
        return 0.0;
      }
      return sumSquaredDiff / totalWeight as real;
    }

    method ClassifyPattern(threshold: real) returns (r: Result)
      requires Sized(View())
      ensures r == Classify(View(), threshold)
    {
      var night := MeanOf(hourlyCPU, NIGHT);
      var day := MeanOf(hourlyCPU, DAY);
      var overall := MeanOfAll();
      var variance := CalculateVariance();
      var ratio := 0.0;
      if day > 0.0 {
        ratio := night / day;
      }
      r := Table(ratio, Min(variance / 50.0, 1.0), overall);
      if r.confidence < threshold {
        r := Result(Unknown, 0.0);
      }
    }
  }

  class Detector {
    var userStats: map<Uid, UserHourlyStats>

    /** Every user has an object of its own. */
    ghost predicate Valid()
      reads this, userStats.Values
    {
      && (forall u | u in userStats :: Sized(userStats[u].View()))
      && (forall u, v | u in userStats && v in userStats && u != v :: userStats[u] != userStats[v])
    }

    ghost function View(): map<Uid, Stats>
      reads this, userStats.Values
    {
      map u | u in userStats :: userStats[u].View()
    }

    constructor ()
      ensures Valid() && View() == map[]
    {
      userStats := map[];
    }

    method Update(uid: Uid, x: Sample)
      requires Valid() && Timed(x)
      modifies this, userStats.Values
      ensures Valid() && fresh(userStats.Values - old(userStats.Values))
      ensures View() == Updated(old(View()), uid, x)
    {
      if uid !in userStats {
        var stats := new UserHourlyStats();
        userStats := userStats[uid := stats];
      }
      userStats[uid].Add(x);
    }

    method Analyze(minSamples: int, threshold: real) returns (results: map<Uid, Result>)
      requires Valid()
      ensures results.Keys == userStats.Keys
      ensures forall u | u in userStats :: results[u] == Analyzed(userStats[u].View(), minSamples, threshold)
    {
      results := map[];
      var todo := userStats.Keys;
      while todo != {}
        invariant todo <= userStats.Keys && results.Keys == userStats.Keys - todo
        invariant forall u | u in results :: results[u] == Analyzed(userStats[u].View(), minSamples, threshold)
        decreases todo
      {
        var uid := Next(todo);
        todo := todo - {uid};
        var stats := userStats[uid];
        if stats.totalSamples < minSamples {
          results := results[uid := Result(Unknown, 0.0)];
        } else {
          var r := stats.ClassifyPattern(threshold);
          results := results[uid := r];
        }
      }
    }

    method Cleanup(now: int, maxAge: int)
      requires Valid()
      modifies this
      ensures Valid() && userStats.Values <= old(userStats.Values)
      ensures View() == Cleaned(old(View()), now, maxAge)
    {
      ghost var all := userStats;
      var todo := userStats.Keys;
      while todo != {}
        invariant todo <= userStats.Keys <= all.Keys
        invariant forall u | u in userStats :: userStats[u] == all[u]
        invariant forall u | u in all :: u in userStats <==> u in todo || !Expired(all[u].View(), now, maxAge)
        decreases todo
      {
        hide Expired;
        var uid := Next(todo);
        todo := todo - {uid};
        if Expired(userStats[uid].View(), now, maxAge) {
          userStats := userStats - {uid};
        }
      }
    }
  }

  /** `now.Sub(stats.LastSample) > maxAge`. */
  predicate Expired(s: Stats, now: int, maxAge: int) { s.last.None? || now - s.last.value > maxAge }

  ghost function Updated(m: map<Uid, Stats>, uid: Uid, x: Sample): map<Uid, Stats>
    requires Timed(x) && forall u | u in m :: Sized(m[u])
  {
    m[uid := Fed(Lookup(m, uid, NoStats()), x)]
  }

  ghost function Cleaned(m: map<Uid, Stats>, now: int, maxAge: int): map<Uid, Stats> {
    map u | u in m && !Expired(m[u], now, maxAge) :: m[u]
  }
}
