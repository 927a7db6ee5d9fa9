/**
  The hourly means forget nothing that matters: they are exact, the overall average is the
  plain mean of all samples, and the variance is the part of the samples' variance that
  lies between hours.
*/
module PatternLaws {
  import opened Common
  import opened PatternDetector

  // ------------------------------------------------------------ sums over samples

  function Sum(xs: seq<Sample>, f: Sample -> real): real {
    if xs == [] then 0.0 else Sum(xs[..|xs| - 1], f) + f(xs[|xs| - 1])
  }

  /** The sum over the samples of one hour. */
  function HourSum(xs: seq<Sample>, f: Sample -> real, h: nat): real {
    if xs == [] then 0.0
    else HourSum(xs[..|xs| - 1], f, h) + if xs[|xs| - 1].hour == h then f(xs[|xs| - 1]) else 0.0
  }

  /** The sum over the samples of the first `k` hours, hour by hour. */
  function ByHour(xs: seq<Sample>, f: Sample -> real, k: nat): real {
    if k == 0 then 0.0 else ByHour(xs, f, k - 1) + HourSum(xs, f, k - 1)
  }

  lemma {:induction false} ByHourStep(xs: seq<Sample>, f: Sample -> real, k: nat)
    requires xs != []
    ensures var n := |xs| - 1;
            ByHour(xs, f, k) == ByHour(xs[..n], f, k) + if xs[n].hour < k then f(xs[n]) else 0.0
  {
    if k > 0 {
      ByHourStep(xs, f, k - 1);
    }
  }

  lemma {:induction false} ByHourNothing(f: Sample -> real, k: nat)
    ensures ByHour([], f, k) == 0.0
  {
    if k > 0 {
      ByHourNothing(f, k - 1);
    }
  }

  lemma {:induction false} ByHourIsSum(xs: seq<Sample>, f: Sample -> real)
    requires AllTimed(xs)
    ensures ByHour(xs, f, HOURS) == Sum(xs, f)
  {
    if xs == [] {
      ByHourNothing(f, HOURS);
    } else {
      var n := |xs| - 1;
      assert xs[n] in xs;
      ByHourIsSum(xs[..n], f);
      ByHourStep(xs, f, HOURS);
    }
  }

  function One(): Sample -> real { (x: Sample) => 1.0 }

  function Usage(): Sample -> real { (x: Sample) => x.cpu }

  function Square(): Sample -> real { (x: Sample) => x.cpu * x.cpu }

  function Deviation(mean: real): Sample -> real { (x: Sample) => (x.cpu - mean) * (x.cpu - mean) }

  lemma {:induction false} SumOfOnes(xs: seq<Sample>)
    ensures Sum(xs, One()) == |xs| as real
  {
    if xs != [] {
      SumOfOnes(xs[..|xs| - 1]);
    }
  }

  // ------------------------------------------------------------ the means are exact

  lemma FedMean(mean: real, n: real, x: real)
    requires n >= 0.0
    ensures (mean * n + x) / (n + 1.0) * (n + 1.0) == mean * n + x
  {
  }

  /** A sample adds itself to the mass and to the count of its hour. */
  lemma FedMass(s: Stats, x: Sample, h: nat)
    requires Sized(s) && Timed(x) && h < HOURS
    ensures var r := Fed(s, x);
            && r.total == s.total + 1
            && Mass(r.cpu[h], r.count[h]) == Mass(s.cpu[h], s.count[h]) + (if x.hour == h then Usage()(x) else 0.0)
            && r.count[h] as real == s.count[h] as real + if x.hour == h then One()(x) else 0.0
  {
    if x.hour == h {
      FedMean(s.cpu[h], s.count[h] as real, x.cpu);
    }
  }

  /** For every hour, mean times count is the sum of that hour's samples. */
  lemma {:induction false} MeansAreExact(xs: seq<Sample>, h: nat)
    requires AllTimed(xs) && h < HOURS
    ensures var s := StatsOf(xs);
            && s.total == |xs|
            && s.count[h] as real == HourSum(xs, One(), h)
            && Mass(s.cpu[h], s.count[h]) == HourSum(xs, Usage(), h)
  {
    hide One, Usage, Fed;
    if xs == [] {
      assert StatsOf(xs) == NoStats();
    } else {
      hide Mass;
      var n := |xs| - 1;
      assert xs[n] in xs;
      MeansAreExact(xs[..n], h);
      FedMass(StatsOf(xs[..n]), xs[n], h);
    }
  }

  lemma {:induction false} WeightIs(xs: seq<Sample>, k: nat)
    requires AllTimed(xs) && k <= HOURS
    ensures Weight(StatsOf(xs).count, k) as real == ByHour(xs, One(), k)
    ensures Weighted(StatsOf(xs).cpu, StatsOf(xs).count, k) == ByHour(xs, Usage(), k)
  {
    if k > 0 {
      hide StatsOf, HourSum, Mass, One, Usage;
      WeightIs(xs, k - 1);
      MeansAreExact(xs, k - 1);
    }
  }

  lemma TotalWeight(xs: seq<Sample>)
    requires AllTimed(xs)
    ensures Weight(StatsOf(xs).count, HOURS) == |xs|
    ensures Weighted(StatsOf(xs).cpu, StatsOf(xs).count, HOURS) == Sum(xs, Usage())
  {
    WeightIs(xs, HOURS);
    ByHourIsSum(xs, One());
    ByHourIsSum(xs, Usage());
    SumOfOnes(xs);
  }

  function Mean(xs: seq<Sample>): real { if xs == [] then 0.0 else Sum(xs, Usage()) / |xs| as real }

  /** The average over all hours is the plain mean of every sample ever fed. */
  lemma OverallAverageIsMean(xs: seq<Sample>)
    requires AllTimed(xs)
    ensures OverallAverage(StatsOf(xs)) == Mean(xs)
  {
    TotalWeight(xs);
  }

  // ------------------------------------------------------------ the law of total variance

  function PopulationVariance(xs: seq<Sample>): real {
    if xs == [] then 0.0 else Sum(xs, Deviation(Mean(xs))) / |xs| as real
  }

  /** The deviations of an hour's samples from that hour's own mean. */
  ghost function Within(xs: seq<Sample>, k: nat): real
    requires AllTimed(xs) && k <= HOURS
  {
    if k == 0 then 0.0 else Within(xs, k - 1) + HourSum(xs, Deviation(StatsOf(xs).cpu[k - 1]), k - 1)
  }

  lemma {:induction false} HourSumIsNonNegative(xs: seq<Sample>, m: real, h: nat)
    ensures HourSum(xs, Deviation(m), h) >= 0.0
  {
    if xs != [] {
      HourSumIsNonNegative(xs[..|xs| - 1], m, h);
      SquareIsNonNegative(xs[|xs| - 1].cpu - m);
    }
  }

  lemma SquareIsNonNegative(x: real)
    ensures x * x >= 0.0
  {
  }

  function Expansion(q: real, u: real, n: real, m: real): real { q - 2.0 * m * u + m * m * n }

  /** Deviations expand into squares, a sum and a count. */
  lemma {:induction false} HourDeviation(xs: seq<Sample>, m: real, h: nat)
    ensures HourSum(xs, Deviation(m), h)
         == Expansion(HourSum(xs, Square(), h), HourSum(xs, Usage(), h), HourSum(xs, One(), h), m)
  {
    hide Expansion, Square, Usage, One, Deviation;
    if xs == [] {
      ExpandNothing(m);
    } else {
      var before, x := xs[..|xs| - 1], xs[|xs| - 1];
      HourDeviation(before, m, h);
      ExpandOne(HourSum(before, Square(), h), HourSum(before, Usage(), h), HourSum(before, One(), h), m, x);
    }
  }

  lemma ExpandNothing(m: real)
    ensures Expansion(0.0, 0.0, 0.0, m) == 0.0
  {
  }

  lemma ExpandOne(q: real, u: real, n: real, m: real, x: Sample)
    ensures Expansion(q, u, n, m) + Deviation(m)(x) == Expansion(q + Square()(x), u + Usage()(x), n + One()(x), m)
  {
    Expanded(q, u, n, m, x.cpu);
  }

  lemma Expanded(q: real, u: real, n: real, m: real, x: real)
    ensures q - 2.0 * m * u + m * m * n + (x - m) * (x - m) == q + x * x - 2.0 * m * (u + x) + m * m * (n + 1.0)
  {
  }

  lemma Expand(q: real, u: real, n: nat, own: real, m: real)
    requires Mass(own, n) == u
    ensures Expansion(q, u, n as real, m) == Expansion(q, u, n as real, own) + Pull(own, m, n)
  {
    ExpandMean(q, n as real, own, m);
  }

  lemma ExpandMean(q: real, n: real, own: real, m: real)
    ensures q - 2.0 * m * (own * n) + m * m * n
         == q - 2.0 * own * (own * n) + own * own * n + (own - m) * (own - m) * n
  {
  }

  /** The deviations of an hour split into those from its own mean, and the distance of that mean. */
  lemma HourSplits(xs: seq<Sample>, m: real, h: nat)
    requires AllTimed(xs) && h < HOURS
    ensures var s := StatsOf(xs);
            HourSum(xs, Deviation(m), h)
            == HourSum(xs, Deviation(s.cpu[h]), h) + Pull(s.cpu[h], m, s.count[h])
  {
    hide Expansion, HourSum, StatsOf, One, Usage, Deviation;
    MeansAreExact(xs, h);
    var own, n := StatsOf(xs).cpu[h], StatsOf(xs).count[h];
    HourDeviation(xs, m, h);
    HourDeviation(xs, own, h);
    hide Mass, Pull;
    Expand(HourSum(xs, Square(), h), HourSum(xs, Usage(), h), n, own, m);
  }

  lemma {:induction false} SpreadAndWithin(xs: seq<Sample>, m: real, k: nat)
    requires AllTimed(xs) && k <= HOURS
    ensures ByHour(xs, Deviation(m), k) == Spread(StatsOf(xs).cpu, StatsOf(xs).count, m, k) + Within(xs, k)
    ensures Spread(StatsOf(xs).cpu, StatsOf(xs).count, m, k) >= 0.0 && Within(xs, k) >= 0.0
  {
    if k > 0 {
      hide StatsOf, HourSum, Deviation, Pull;
      var s, h := StatsOf(xs), k - 1;
      SpreadAndWithin(xs, m, h);
      HourSplits(xs, m, h);
      HourSumIsNonNegative(xs, s.cpu[h], h);
      PullIsNonNegative(s.cpu[h], m, s.count[h]);
    }
  }

  lemma PullIsNonNegative(own: real, m: real, n: nat)
    ensures Pull(own, m, n) >= 0.0
  {
    SquareIsNonNegative(own - m);
  }

  /**
    The variance the detector works with, unless the mean is zero and it gives up: the
    population variance less the mean variance inside the hours.
  */
  lemma TotalVariance(xs: seq<Sample>)
    requires AllTimed(xs) && xs != []
    ensures var n := |xs| as real;
            && (Mean(xs) != 0.0 ==> Variance(StatsOf(xs)) == PopulationVariance(xs) - Within(xs, HOURS) / n)
            && (Mean(xs) == 0.0 ==> Variance(StatsOf(xs)) == 0.0)
            && Within(xs, HOURS) >= 0.0
  {
    var n, m := |xs| as real, Mean(xs);
    OverallAverageIsMean(xs);
    TotalWeight(xs);
    SpreadAndWithin(xs, m, HOURS);
    ByHourIsSum(xs, Deviation(m));
    var spread, within := Spread(StatsOf(xs).cpu, StatsOf(xs).count, m, HOURS), Within(xs, HOURS);
    Divide(spread, within, n);
  }

  lemma Divide(a: real, b: real, n: real)
    requires n > 0.0
    ensures (a + b) / n - b / n == a / n && (a >= 0.0 ==> a / n >= 0.0)
  {
  }

  /** The variance is never negative and never more than the variance of the samples themselves. */
  lemma VarianceIsBounded(xs: seq<Sample>)
    requires AllTimed(xs)
    ensures 0.0 <= Variance(StatsOf(xs)) <= PopulationVariance(xs)
  {
    if xs == [] {
      TotalWeight(xs);
    } else {
      var m, n := Mean(xs), |xs| as real;
      OverallAverageIsMean(xs);
      TotalWeight(xs);
      SpreadAndWithin(xs, m, HOURS);
      ByHourIsSum(xs, Deviation(m));
      Divide(Spread(StatsOf(xs).cpu, StatsOf(xs).count, m, HOURS), Within(xs, HOURS), n);
      Divide(Within(xs, HOURS), Spread(StatsOf(xs).cpu, StatsOf(xs).count, m, HOURS), n);
    }
  }

  // ------------------------------------------------------------ classification

  /** Whatever the samples, a confidence lies in [0, 1]; a named pattern reaches the threshold. */
  lemma ConfidenceIsProbability(xs: seq<Sample>, minSamples: int, threshold: real)
    requires AllTimed(xs)
    ensures var r := Analyzed(StatsOf(xs), minSamples, threshold);
            0.0 <= r.confidence <= 1.0 && (r.pattern.Unknown? || (r.confidence >= threshold && |xs| >= minSamples))
  {
    VarianceIsBounded(xs);
    MeansAreExact(xs, 0);
    var s := StatsOf(xs);
    var night, day := Average(s.cpu, NIGHT), Average(s.cpu, DAY);
    TableIsProbability(if day > 0.0 then night / day else 0.0, Min(Variance(s) / 50.0, 1.0), OverallAverage(s));
  }

  lemma TableIsProbability(ratio: real, variance: real, overall: real)
    requires 0.0 <= variance <= 1.0
    ensures 0.0 <= Table(ratio, variance, overall).confidence <= 1.0
  {
  }

  /** Samples that are all alike have no variance, and are never called nightly, mixed or sporadic. */
  lemma ConstantLoad(xs: seq<Sample>, cpu: real, minSamples: int, threshold: real)
    requires AllTimed(xs) && forall x | x in xs :: x.cpu == cpu
    ensures Variance(StatsOf(xs)) == 0.0
    ensures var p := Analyzed(StatsOf(xs), minSamples, threshold).pattern; p.Unknown? || p.InteractiveDay? || p.AlwaysOn?
  {
    ConstantSum(xs, cpu);
    VarianceIsBounded(xs);
  }

  lemma {:induction false} ConstantSum(xs: seq<Sample>, cpu: real)
    requires forall x | x in xs :: x.cpu == cpu
    ensures xs != [] ==> Mean(xs) == cpu
    ensures PopulationVariance(xs) == 0.0
  {
    if xs != [] {
      ConstantUsage(xs, cpu);
      assert Mean(xs) == cpu;
      ConstantDeviation(xs, cpu);
    }
  }

  lemma {:induction false} ConstantUsage(xs: seq<Sample>, cpu: real)
    requires forall x | x in xs :: x.cpu == cpu
    ensures Sum(xs, Usage()) == cpu * |xs| as real
  {
    if xs != [] {
      assert xs[|xs| - 1] in xs;
      ConstantUsage(xs[..|xs| - 1], cpu);
    }
  }

  lemma {:induction false} ConstantDeviation(xs: seq<Sample>, cpu: real)
    requires forall x | x in xs :: x.cpu == cpu
    ensures Sum(xs, Deviation(cpu)) == 0.0
  {
    if xs != [] {
      assert xs[|xs| - 1] in xs;
      ConstantDeviation(xs[..|xs| - 1], cpu);
    }
  }

  // ------------------------------------------------------------ all users

  datatype Event = Feed(uid: Uid, sample: Sample) | Expire(now: int, maxAge: int)

  ghost function Step(m: map<Uid, Stats>, e: Event): (r: map<Uid, Stats>)
    requires (forall u | u in m :: Sized(m[u])) && (e.Feed? ==> Timed(e.sample))
    ensures forall u | u in r :: Sized(r[u])
  {
    match e
    case Feed(uid, x) => Updated(m, uid, x)
    case Expire(now, maxAge) => Cleaned(m, now, maxAge)
  }

  ghost predicate Proper(es: seq<Event>) { forall e | e in es && e.Feed? :: Timed(e.sample) }

  ghost function Run(es: seq<Event>): (r: map<Uid, Stats>)
    requires Proper(es)
    ensures forall u | u in r :: Sized(r[u])
  {
    if es == [] then map[] else Step(Run(es[..|es| - 1]), es[|es| - 1])
  }

  /** The samples of a user since the last cleanup that came too late after its newest sample. */
  function History(es: seq<Event>, uid: Uid): seq<Sample> {
    if es == [] then []
    else
      var before := History(es[..|es| - 1], uid);
      match es[|es| - 1]
      case Feed(u, x) => if u == uid then before + [x] else before
      case Expire(now, maxAge) =>
        if before != [] && now - before[|before| - 1].at > maxAge then [] else before
  }

  /** Every user's statistics are those of its own samples since it was last dropped. */
  lemma {:induction false} RunIsPerUser(es: seq<Event>, uid: Uid)
    requires Proper(es)
    ensures AllTimed(History(es, uid))
    ensures uid in Run(es) <==> History(es, uid) != []
    ensures uid in Run(es) ==> Run(es)[uid] == StatsOf(History(es, uid))
  {
    if es != [] {
      var before, e := es[..|es| - 1], es[|es| - 1];
      assert e in es;
      RunIsPerUser(before, uid);
      var xs := History(before, uid);
      if e.Feed? && e.uid == uid {
        assert (xs + [e.sample])[..|xs|] == xs;
      }
    }
  }
}
