/** What each workload pattern says about the samples that led to it. */
module PatternClasses {
  import opened Common
  import opened PatternDetector
  import opened PatternLaws

  // ------------------------------------------------------------ measures of samples

  /** The mean of the samples of one hour of the day; zero if there are none. */
  function HourMean(xs: seq<Sample>, h: nat): real {
    if HourSum(xs, One(), h) == 0.0 then 0.0 else HourSum(xs, Usage(), h) / HourSum(xs, One(), h)
  }

  /** What samples are judged by: means of the hourly means of night and day, unevenness in [0, 1], overall mean. */
  datatype Measures = Measures(night: real, day: real, uneven: real, mean: real)

  /** The variance between the hours, where the overall mean is not zero. */
  ghost function Between(xs: seq<Sample>): real
    requires AllTimed(xs)
  {
    if xs == [] || Mean(xs) == 0.0 then 0.0 else PopulationVariance(xs) - Within(xs, HOURS) / |xs| as real
  }

  ghost function MeasuresOf(xs: seq<Sample>): Measures
    requires AllTimed(xs)
  {
    Measures(
      (HourMean(xs, 22) + HourMean(xs, 23) + HourMean(xs, 0) + HourMean(xs, 1) + HourMean(xs, 2) + HourMean(xs, 3)
       + HourMean(xs, 4) + HourMean(xs, 5) + HourMean(xs, 6)) / 9.0,
      (HourMean(xs, 8) + HourMean(xs, 9) + HourMean(xs, 10) + HourMean(xs, 11) + HourMean(xs, 12) + HourMean(xs, 13)
       + HourMean(xs, 14) + HourMean(xs, 15) + HourMean(xs, 16) + HourMean(xs, 17)) / 10.0,
      if Between(xs) >= 50.0 then 1.0 else Between(xs) / 50.0,
      Mean(xs))
  }

  lemma {:induction false} NoSampleNoMean(xs: seq<Sample>, h: nat)
    requires AllTimed(xs) && h < HOURS && StatsOf(xs).count[h] == 0
    ensures StatsOf(xs).cpu[h] == 0.0
  {
    if xs != [] {
      assert xs[|xs| - 1] in xs;
      NoSampleNoMean(xs[..|xs| - 1], h);
    }
  }

  lemma MeanIs(mean: real, n: nat, sum: real)
    requires n > 0 && Mass(mean, n) == sum
    ensures mean == sum / n as real
  {
  }

  /** The running mean of an hour is the mean of its samples. */
  lemma HourMeanIs(xs: seq<Sample>, h: nat)
    requires AllTimed(xs) && h < HOURS
    ensures StatsOf(xs).cpu[h] == HourMean(xs, h)
  {
    MeansAreExact(xs, h);
    var s := StatsOf(xs);
    if s.count[h] == 0 {
      NoSampleNoMean(xs, h);
    } else {
      MeanIs(s.cpu[h], s.count[h], HourSum(xs, Usage(), h));
    }
  }

  lemma SumNext(values: seq<real>, hours: seq<int>, h: int)
    requires 0 <= h < |values|
    ensures SumAt(values, hours + [h]) == SumAt(values, hours) + values[h]
    ensures CountAt(values, hours + [h]) == CountAt(values, hours) + 1
  {
    assert (hours + [h])[..|hours|] == hours;
  }

  lemma NightIs(v: seq<real>)
    requires |v| == HOURS
    ensures Average(v, NIGHT) == (v[22] + v[23] + v[0] + v[1] + v[2] + v[3] + v[4] + v[5] + v[6]) / 9.0
  {
    SumNext(v, [], 22);
    SumNext(v, [22], 23);
    SumNext(v, [22, 23], 0);
    SumNext(v, [22, 23, 0], 1);
    SumNext(v, [22, 23, 0, 1], 2);
    SumNext(v, [22, 23, 0, 1, 2], 3);
    SumNext(v, [22, 23, 0, 1, 2, 3], 4);
    SumNext(v, [22, 23, 0, 1, 2, 3, 4], 5);
    SumNext(v, [22, 23, 0, 1, 2, 3, 4, 5], 6);
    Displays();
    hide SumAt, CountAt;
    EmptySum(v);
  }

  lemma DayIs(v: seq<real>)
    requires |v| == HOURS
    ensures Average(v, DAY)
         == (v[8] + v[9] + v[10] + v[11] + v[12] + v[13] + v[14] + v[15] + v[16] + v[17]) / 10.0
  {
    SumNext(v, [], 8);
    SumNext(v, [8], 9);
    SumNext(v, [8, 9], 10);
    SumNext(v, [8, 9, 10], 11);
    SumNext(v, [8, 9, 10, 11], 12);
    SumNext(v, [8, 9, 10, 11, 12], 13);
    SumNext(v, [8, 9, 10, 11, 12, 13], 14);
    SumNext(v, [8, 9, 10, 11, 12, 13, 14], 15);
    SumNext(v, [8, 9, 10, 11, 12, 13, 14, 15], 16);
    SumNext(v, [8, 9, 10, 11, 12, 13, 14, 15, 16], 17);
    Displays();
    hide SumAt, CountAt;
    EmptySum(v);
  }

  lemma EmptySum(v: seq<real>)
    ensures SumAt(v, []) == 0.0 && CountAt(v, []) == 0
  {
  }

  /** Displays written one by one. */
  lemma Displays()
    ensures [] + [22] == [22] && [22] + [23] == [22, 23] && [22, 23] + [0] == [22, 23, 0]
    ensures [22, 23, 0] + [1] == [22, 23, 0, 1] && [22, 23, 0, 1] + [2] == [22, 23, 0, 1, 2]
    ensures [22, 23, 0, 1, 2] + [3] == [22, 23, 0, 1, 2, 3] && [22, 23, 0, 1, 2, 3] + [4] == [22, 23, 0, 1, 2, 3, 4]
    ensures [22, 23, 0, 1, 2, 3, 4] + [5] == [22, 23, 0, 1, 2, 3, 4, 5]
    ensures [22, 23, 0, 1, 2, 3, 4, 5] + [6] == [22, 23, 0, 1, 2, 3, 4, 5, 6]
    ensures [] + [8] == [8] && [8] + [9] == [8, 9] && [8, 9] + [10] == [8, 9, 10] && [8, 9, 10] + [11] == [8, 9, 10, 11]
    ensures [8, 9, 10, 11] + [12] == [8, 9, 10, 11, 12] && [8, 9, 10, 11, 12] + [13] == [8, 9, 10, 11, 12, 13]
    ensures [8, 9, 10, 11, 12, 13] + [14] == [8, 9, 10, 11, 12, 13, 14]
    ensures [8, 9, 10, 11, 12, 13, 14] + [15] == [8, 9, 10, 11, 12, 13, 14, 15]
    ensures [8, 9, 10, 11, 12, 13, 14, 15] + [16] == [8, 9, 10, 11, 12, 13, 14, 15, 16]
    ensures [8, 9, 10, 11, 12, 13, 14, 15, 16] + [17] == [8, 9, 10, 11, 12, 13, 14, 15, 16, 17]
  {
  }

  /** The detector judges samples by exactly these measures. */
  lemma MeasuresAre(xs: seq<Sample>)
    requires AllTimed(xs)
    ensures var s, m := StatsOf(xs), MeasuresOf(xs);
            && Average(s.cpu, NIGHT) == m.night && Average(s.cpu, DAY) == m.day && OverallAverage(s) == m.mean
            && Min(Variance(s) / 50.0, 1.0) == m.uneven && 0.0 <= m.uneven <= 1.0
  {
    var s := StatsOf(xs);
    forall h: nat | h < HOURS ensures s.cpu[h] == HourMean(xs, h) {
      HourMeanIs(xs, h);
    }
    NightIs(s.cpu);
    DayIs(s.cpu);
    OverallAverageIsMean(xs);
    VarianceIsBounded(xs);
    VarianceIs(xs);
    hide HourMean, StatsOf, Average, Variance, OverallAverage, Between, Mean, PopulationVariance;
  }

  lemma VarianceIs(xs: seq<Sample>)
    requires AllTimed(xs)
    ensures Variance(StatsOf(xs)) == Between(xs)
  {
    if xs == [] {
      TotalWeight(xs);
    } else {
      TotalVariance(xs);
    }
    hide StatsOf, Mean, PopulationVariance, Within;
  }

  // ------------------------------------------------------------ the patterns

  predicate Nightly(m: Measures) { m.day > 0.0 && m.night > 1.5 * m.day && m.uneven > 0.4 }

  predicate Daytime(m: Measures) { (m.day > 0.0 ==> m.night < 0.5 * m.day) && m.uneven < 0.3 && m.mean > 5.0 }

  predicate Balanced(m: Measures) { m.day > 0.0 && 0.8 * m.day < m.night < 1.2 * m.day && m.uneven > 0.5 }

  predicate Steady(m: Measures) { m.uneven < 0.2 && m.mean > 10.0 }

  predicate Rare(m: Measures) { m.uneven > 0.6 && m.mean < 5.0 }

  /** How far a pattern is trusted. */
  function Trust(m: Measures, p: Pattern): real
    requires p == BatchNight ==> m.day > 0.0
  {
    var ratio := if m.day > 0.0 then m.night / m.day else 0.0;
    match p
    case Unknown => 0.0
    case BatchNight => AtMostOne(0.2 * ratio + 0.4 * m.uneven)
    case InteractiveDay => AtMostOne(1.0 - (ratio + m.uneven) / 2.0)
    case Mixed => m.uneven
    case AlwaysOn => 1.0 - m.uneven
    case Sporadic => AtMostOne(0.3 + 0.7 * m.uneven - 0.06 * m.mean)
  }

  function AtMostOne(x: real): real { if x > 1.0 then 1.0 else x }

  /** The pattern that the measures fit. Two can fit only for three pairs, in which the first one named here wins. */
  function Fits(m: Measures): Pattern {
    if Steady(m) && !Daytime(m) then AlwaysOn
    else if Rare(m) && !Nightly(m) && !Balanced(m) then Sporadic
    else if Daytime(m) then InteractiveDay
    else if Balanced(m) then Mixed
    else if Nightly(m) then BatchNight
    else Unknown
  }

  lemma Ratio(night: real, day: real, k: real)
    requires day > 0.0
    ensures night / day > k <==> night > k * day
    ensures night / day < k <==> night < k * day
  {
    var q := night / day;
    assert q * day == night;
    if q > k {
      assert (q - k) * day > 0.0;
    } else if q < k {
      assert (k - q) * day > 0.0;
    }
  }

  lemma TableIs(m: Measures)
    requires 0.0 <= m.uneven <= 1.0
    ensures Table(if m.day > 0.0 then m.night / m.day else 0.0, m.uneven, m.mean) == Result(Fits(m), Trust(m, Fits(m)))
  {
    if m.day > 0.0 {
      Ratio(m.night, m.day, 1.5);
      Ratio(m.night, m.day, 0.5);
      Ratio(m.night, m.day, 0.8);
      Ratio(m.night, m.day, 1.2);
      TableOf(m, m.night / m.day);
    } else {
      TableOf(m, 0.0);
    }
  }

  lemma TableOf(m: Measures, ratio: real)
    requires 0.0 <= m.uneven <= 1.0 && ratio == if m.day > 0.0 then m.night / m.day else 0.0
    requires m.day > 0.0 ==> (ratio > 1.5 <==> m.night > 1.5 * m.day) && (ratio < 0.5 <==> m.night < 0.5 * m.day)
                             && (ratio > 0.8 <==> m.night > 0.8 * m.day) && (ratio < 1.2 <==> m.night < 1.2 * m.day)
    ensures Table(ratio, m.uneven, m.mean) == Result(Fits(m), Trust(m, Fits(m)))
  {
  }

  lemma TotalIs(xs: seq<Sample>)
    requires AllTimed(xs)
    ensures StatsOf(xs).total == |xs|
  {
    MeansAreExact(xs, 0);
    hide StatsOf, Mass, HourSum;
  }

  lemma JudgedIs(s: Stats, m: Measures, minSamples: int, threshold: real)
    requires Sized(s) && 0.0 <= m.uneven <= 1.0
    requires Average(s.cpu, NIGHT) == m.night && Average(s.cpu, DAY) == m.day && OverallAverage(s) == m.mean
    requires Min(Variance(s) / 50.0, 1.0) == m.uneven
    ensures Analyzed(s, minSamples, threshold)
         == if s.total >= minSamples && Trust(m, Fits(m)) >= threshold then Result(Fits(m), Trust(m, Fits(m)))
            else Result(Unknown, 0.0)
  {
    hide Table, Average, Variance, OverallAverage, Fits, Trust, Min;
    TableIs(m);
  }

  /**
    Whatever the samples: the answer is the pattern that fits them with its trust, or unknown
    if there are too few of them or the trust is below the threshold.
  */
  lemma ClassifiedIs(xs: seq<Sample>, minSamples: int, threshold: real)
    requires AllTimed(xs)
    ensures var m := MeasuresOf(xs);
            Analyzed(StatsOf(xs), minSamples, threshold)
            == if |xs| >= minSamples && Trust(m, Fits(m)) >= threshold then Result(Fits(m), Trust(m, Fits(m)))
               else Result(Unknown, 0.0)
  {
    hide MeasuresOf, StatsOf, Average, Variance, OverallAverage, Fits, Trust, Min, Analyzed;
    MeasuresAre(xs);
    TotalIs(xs);
    JudgedIs(StatsOf(xs), MeasuresOf(xs), minSamples, threshold);
  }

  /** So a pattern that is named says this of the samples, and nothing less is needed for it. */
  lemma PatternIff(xs: seq<Sample>, minSamples: int, threshold: real, p: Pattern)
    requires AllTimed(xs) && p != Unknown
    ensures var m := MeasuresOf(xs);
            var fits := match p
                        case BatchNight => Nightly(m)
                        case InteractiveDay => Daytime(m)
                        case Mixed => Balanced(m)
                        case AlwaysOn => Steady(m) && !Daytime(m)
                        case Sporadic => Rare(m) && !Nightly(m) && !Balanced(m)
                        case _ => false;
            Analyzed(StatsOf(xs), minSamples, threshold).pattern == p
            <==> fits && |xs| >= minSamples && Trust(m, p) >= threshold
  {
    ClassifiedIs(xs, minSamples, threshold);
    hide Analyzed, MeasuresOf, Trust;
  }

  // ------------------------------------------------------------ users of the night

  /** No sample lies in the hours of the day. */
  ghost predicate Dayless(xs: seq<Sample>) { forall x | x in xs :: x.hour < 8 || x.hour > 17 }

  lemma {:induction false} NoSampleInHour(xs: seq<Sample>, h: nat)
    requires forall x | x in xs :: x.hour != h
    ensures HourSum(xs, One(), h) == 0.0
  {
    if xs != [] {
      assert xs[|xs| - 1] in xs;
      NoSampleInHour(xs[..|xs| - 1], h);
    }
  }

  lemma NoDay(xs: seq<Sample>)
    requires AllTimed(xs) && Dayless(xs)
    ensures MeasuresOf(xs).day == 0.0
  {
    forall h: nat | 8 <= h <= 17 ensures HourMean(xs, h) == 0.0 {
      NoSampleInHour(xs, h);
    }
    hide HourMean, Between, Mean;
  }

  /**
    A user that is never seen by day has no ratio of night to day, and the code takes zero for
    it: such a user is never called nightly, and is called a day user exactly if its hours are
    even enough and it is busy enough.
  */
  lemma DaylessIff(xs: seq<Sample>, minSamples: int, threshold: real)
    requires AllTimed(xs) && Dayless(xs)
    ensures var p, m := Analyzed(StatsOf(xs), minSamples, threshold).pattern, MeasuresOf(xs);
            && p != BatchNight
            && (p == InteractiveDay
                <==> m.uneven < 0.3 && m.mean > 5.0 && |xs| >= minSamples && 1.0 - m.uneven / 2.0 >= threshold)
  {
    NoDay(xs);
    MeasuresAre(xs);
    PatternIff(xs, minSamples, threshold, BatchNight);
    PatternIff(xs, minSamples, threshold, InteractiveDay);
    hide Analyzed, MeasuresOf, StatsOf, Average, Variance, OverallAverage, Min;
  }

  /** A constant load at midnight and at no other hour is called a day user. */
  lemma NightUser(n: nat, minSamples: int, threshold: real)
    requires 0 < n && minSamples <= n && threshold <= 1.0
    ensures var xs := seq(n, (i: nat) => Sample(0, 20.0, i));
            AllTimed(xs) && Analyzed(StatsOf(xs), minSamples, threshold).pattern == InteractiveDay
  {
    var xs := seq(n, (i: nat) => Sample(0, 20.0, i));
    ConstantSum(xs, 20.0);
    VarianceIs(xs);
    ConstantLoad(xs, 20.0, minSamples, threshold);
    DaylessIff(xs, minSamples, threshold);
    assert MeasuresOf(xs).uneven == 0.0;
    hide Analyzed, StatsOf, Variance, PopulationVariance;
  }
}
