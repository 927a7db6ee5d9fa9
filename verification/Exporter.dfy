/**
  The per-user part of the Prometheus exporter: counters fed with differences of raw
  readings, and the labels that have to disappear with their users.
*/
module Exporter {
  import opened Common
  import opened Text

  // ------------------------------------------------------------ series and keys

  datatype Counter = MemoryHigh | ReadBytes | WriteBytes | ReadOps | WriteOps

  datatype Gauge = CPU | CPUAverage | CPUEMA | Memory | Processes | Limited

  datatype Label = Label(uid: string, username: string)

  datatype Series = Series(counter: Counter, tags: Label)

  datatype GaugeSeries = GaugeSeries(gauge: Gauge, tags: Label)

  datatype PatternSeries = PatternSeries(tags: Label, pattern: string)

  /** The raw values read for a user, kept as the previous ones of the next update. */
  datatype IOStats = IOStats(readBytes: nat, writeBytes: nat, readOps: nat, writeOps: nat)

  datatype Raw = Raw(memoryHigh: nat, io: IOStats)

  function Of(r: Raw, c: Counter): nat {
    match c
    case MemoryHigh => r.memoryHigh
    case ReadBytes => r.io.readBytes
    case WriteBytes => r.io.writeBytes
    case ReadOps => r.io.readOps
    case WriteOps => r.io.writeOps
  }

  const NO_IO := IOStats(0, 0, 0, 0)

  function LabelOf(uid: Uid, username: string): Label { Label(Itoa(uid.id), username) }

  function KeyOf(uid: Uid, username: string): string { Itoa(uid.id) + "_" + username }

  /** The labels that `CleanupUserMetrics` takes apart from a key, if it can. */
  function Parsed(key: string): Option<Label> {
    var (head, tail) := SplitOnce(key, '_');
    if tail.None? || Atoi(head).None? then None else Some(Label(head, tail.value))
  }

  function UidOf(key: string): Option<Uid> {
    var p := Parsed(key);
    if p.None? || Atoi(p.value.uid).None? then None else Some(Uid(Atoi(p.value.uid).value))
  }

  /** A key is taken apart into what it was made of, whatever the username looks like. */
  lemma KeyRoundTrip(uid: Uid, username: string)
    requires IsInt(uid.id)
    ensures Parsed(KeyOf(uid, username)) == Some(LabelOf(uid, username)) && UidOf(KeyOf(uid, username)) == Some(uid)
  {
    var head := Itoa(uid.id);
    assert KeyOf(uid, username) == head + ['_'] + username;
    SplitOnceIs(head, '_', username);
    AtoiItoa(uid.id);
  }

  // ------------------------------------------------------------ the exporter

  datatype State = State(
    active: set<string>,
    prevHigh: map<string, nat>,
    prevIO: map<string, IOStats>,
    prevPatterns: map<string, string>,
    counters: map<Series, nat>,
    gauges: set<GaugeSeries>,
    patterns: set<PatternSeries>)

  const Start := State({}, map[], map[], map[], map[], {}, {})

  const KEPT := {CPUAverage, CPUEMA}

  const ALL_GAUGES := {CPU, CPUAverage, CPUEMA, Memory, Processes, Limited}

  const ALL_COUNTERS := {MemoryHigh, ReadBytes, WriteBytes, ReadOps, WriteOps}

  function Previous(s: State, key: string): Raw { Raw(Lookup(s.prevHigh, key, 0), Lookup(s.prevIO, key, NO_IO)) }

  function Grown(value: nat, reading: nat, previous: nat): nat {
    if reading > previous then value + (reading - previous) else value
  }

  function GaugesOf(tags: Label, gs: set<Gauge>): set<GaugeSeries> { set g | g in gs :: GaugeSeries(g, tags) }

  function SeriesOf(labels: set<Label>): set<Series> {
    set l, c | l in labels && c in ALL_COUNTERS :: Series(c, l)
  }

  function CleanedGauges(labels: set<Label>): set<GaugeSeries> {
    set l, g | l in labels && g in ALL_GAUGES - KEPT :: GaugeSeries(g, l)
  }

  /** The tracked keys that `CleanupUserMetrics` removes. */
  function Gone(s: State, activeUids: set<Uid>): set<string> {
    set k | k in s.active && Parsed(k).Some? && UidOf(k).Some? && UidOf(k).value !in activeUids
  }

  function LabelsOf(keys: set<string>): set<Label> { set k | k in keys && Parsed(k).Some? :: Parsed(k).value }

  function PatternsOf(keys: set<string>, prev: map<string, string>): set<PatternSeries> {
    set k | k in keys && Parsed(k).Some? && k in prev :: PatternSeries(Parsed(k).value, prev[k])
  }

  function Cleaned(s: State, gone: set<string>): State {
    State(s.active - gone, s.prevHigh - gone, s.prevIO - gone, s.prevPatterns - gone,
          s.counters - SeriesOf(LabelsOf(gone)), s.gauges - CleanedGauges(LabelsOf(gone)),
          s.patterns - PatternsOf(gone, s.prevPatterns))
  }

  function ValueOf(counters: map<Series, nat>, series: Series): nat { Lookup(counters, series, 0) }

  class PrometheusExporter {
    var activeUserMetrics: set<string>
    var prevMemoryHighEvents: map<string, nat>
    var prevIOStats: map<string, IOStats>
    var prevUserPatterns: map<string, string>
    var counters: map<Series, nat>
    var gauges: set<GaugeSeries>
    var userWorkloadPattern: set<PatternSeries>

    function View(): State
      reads this
    {
      State(activeUserMetrics, prevMemoryHighEvents, prevIOStats, prevUserPatterns, counters, gauges, userWorkloadPattern)
    }

    constructor ()
      ensures View() == Start
    {
      activeUserMetrics, prevMemoryHighEvents, prevIOStats, prevUserPatterns := {}, map[], map[], map[];
      counters, gauges, userWorkloadPattern := map[], {}, {};
    }

    /** `WithLabelValues(...).Add`, which creates a series that does not exist. */
    method AddTo(series: Series, delta: nat)
      modifies this`counters
      ensures counters == old(counters)[series := ValueOf(old(counters), series) + delta]
    {
      counters := counters[series := Lookup(counters, series, 0) + delta];
    }

    /** The memory event counter asks for a rise, the I/O counters only for no fall. */
    method AddRise(counter: Counter, tags: Label, reading: nat, previous: nat)
      modifies this`counters
      ensures Risen(old(counters), counters, Series(counter, tags), reading, previous)
    {
      if reading > previous || (reading == previous && !counter.MemoryHigh?) {
        AddTo(Series(counter, tags), reading - previous);
      }
    }

    method AddRises(tags: Label, raw: Raw, previous: Raw)
      modifies this`counters
      ensures AllRisen(old(counters), counters, tags, raw, previous)
    {
      hide Risen;
      ghost var c0 := counters;
      AddRise(MemoryHigh, tags, raw.memoryHigh, previous.memoryHigh);
      ghost var c1 := counters;
      AddRise(ReadBytes, tags, raw.io.readBytes, previous.io.readBytes);
      ghost var c2 := counters;
      AddRise(WriteBytes, tags, raw.io.writeBytes, previous.io.writeBytes);
      ghost var c3 := counters;
      AddRise(ReadOps, tags, raw.io.readOps, previous.io.readOps);
      ghost var c4 := counters;
      AddRise(WriteOps, tags, raw.io.writeOps, previous.io.writeOps);
      FiveRises(c0, c1, c2, c3, c4, counters, tags, raw, previous);
    }

    /** The username is the one after the lookup for an empty or numeric name. */
    method UpdateUserMetrics(uid: Uid, username: string, raw: Raw)
      modifies this`activeUserMetrics, this`gauges, this`prevMemoryHighEvents, this`prevIOStats, this`counters
      ensures activeUserMetrics == old(activeUserMetrics) + {KeyOf(uid, username)}
      ensures prevMemoryHighEvents == old(prevMemoryHighEvents)[KeyOf(uid, username) := raw.memoryHigh]
      ensures prevIOStats == old(prevIOStats)[KeyOf(uid, username) := raw.io]
      ensures gauges == old(gauges) + GaugesOf(LabelOf(uid, username), ALL_GAUGES)
      ensures AllRisen(old(counters), counters, LabelOf(uid, username), raw, Previous(old(View()), KeyOf(uid, username)))
    {
      hide AllRisen;
      var tags, userKey := LabelOf(uid, username), KeyOf(uid, username);
      var previous := Raw(Lookup(prevMemoryHighEvents, userKey, 0), Lookup(prevIOStats, userKey, NO_IO));
      activeUserMetrics := activeUserMetrics + {userKey};
      gauges := gauges + GaugesOf(tags, ALL_GAUGES);
      AddRises(tags, raw, previous);
      prevMemoryHighEvents := prevMemoryHighEvents[userKey := raw.memoryHigh];
      prevIOStats := prevIOStats[userKey := raw.io];
    }

    method UpdateUserWorkloadPattern(uid: Uid, username: string, pattern: string)
      modifies this`userWorkloadPattern, this`prevUserPatterns
      ensures View() == Relabelled(old(View()), uid, username, pattern)
    {
      var tags, userKey := LabelOf(uid, username), KeyOf(uid, username);
      if userKey in prevUserPatterns && prevUserPatterns[userKey] != pattern {
        userWorkloadPattern := userWorkloadPattern - {PatternSeries(tags, prevUserPatterns[userKey])};
      }
      userWorkloadPattern := userWorkloadPattern + {PatternSeries(tags, pattern)};
      prevUserPatterns := prevUserPatterns[userKey := pattern];
    }

    /** The body of the cleanup loop for a user that is no longer active. */
    method Forget(userKey: string, tags: Label)
      requires Parsed(userKey) == Some(tags)
      modifies this
      ensures View() == Cleaned(old(View()), {userKey})
    {
      ForgetsOne(userKey, tags, prevUserPatterns);
      counters := counters - SeriesOf({tags});
      gauges := gauges - CleanedGauges({tags});
      if userKey in prevUserPatterns {
        userWorkloadPattern := userWorkloadPattern - {PatternSeries(tags, prevUserPatterns[userKey])};
      }
      prevMemoryHighEvents := prevMemoryHighEvents - {userKey};
      prevIOStats := prevIOStats - {userKey};
      prevUserPatterns := prevUserPatterns - {userKey};
      activeUserMetrics := activeUserMetrics - {userKey};
    }

    method CleanupUserMetrics(activeUids: set<Uid>)
      modifies this
      ensures View() == Cleaned(old(View()), Gone(old(View()), activeUids))
    {
      hide Parsed, UidOf;
      ghost var all := View();
      ghost var gone := Gone(all, activeUids);
      var todo := activeUserMetrics;
      CleanNothing(all);
      assert gone - todo == {};
      while todo != {}
        invariant todo <= all.active
        invariant View() == Cleaned(all, gone - todo)
        decreases todo
      {
        var userKey := Next(todo);
        var tags := Parsed(userKey);
        var uid := UidOf(userKey);
        if tags.Some? && uid.Some? && uid.value !in activeUids {
          CleanMore(all, gone - todo, userKey);
          assert gone - (todo - {userKey}) == gone - todo + {userKey};
          hide Cleaned;
          Forget(userKey, tags.value);
        } else {
          assert gone - (todo - {userKey}) == gone - todo;
        }
        todo := todo - {userKey};
      }
      assert gone - todo == gone;
    }
  }

  lemma ForgetsOne(userKey: string, tags: Label, prev: map<string, string>)
    requires Parsed(userKey) == Some(tags)
    ensures LabelsOf({userKey}) == {tags}
    ensures PatternsOf({userKey}, prev) == if userKey in prev then {PatternSeries(tags, prev[userKey])} else {}
  {
    hide Parsed;
  }

  lemma CleanNothing(s: State)
    ensures Cleaned(s, {}) == s
  {
    assert LabelsOf({}) == {} && SeriesOf({}) == {} && CleanedGauges({}) == {} && PatternsOf({}, s.prevPatterns) == {};
    assert s.counters - {} == s.counters;
  }

  lemma MinusTwice<K, V>(m: map<K, V>, a: set<K>, b: set<K>)
    ensures m - a - b == m - (a + b)
  {
  }

  lemma SeriesTogether(a: set<Label>, b: set<Label>)
    ensures SeriesOf(a + b) == SeriesOf(a) + SeriesOf(b)
    ensures CleanedGauges(a + b) == CleanedGauges(a) + CleanedGauges(b)
  {
  }

  lemma KeysTogether(gone: set<string>, key: string, prev: map<string, string>)
    requires key !in gone
    ensures LabelsOf(gone + {key}) == LabelsOf(gone) + LabelsOf({key})
    ensures PatternsOf(gone + {key}, prev) == PatternsOf(gone, prev) + PatternsOf({key}, prev - gone)
  {
    hide Parsed;
  }

  lemma CleanMore(s: State, gone: set<string>, key: string)
    requires key !in gone
    ensures Cleaned(Cleaned(s, gone), {key}) == Cleaned(s, gone + {key})
  {
    hide LabelsOf, SeriesOf, CleanedGauges, PatternsOf;
    KeysTogether(gone, key, s.prevPatterns);
    SeriesTogether(LabelsOf(gone), LabelsOf({key}));
    MinusTwice(s.prevHigh, gone, {key});
    MinusTwice(s.prevIO, gone, {key});
    MinusTwice(s.prevPatterns, gone, {key});
    MinusTwice(s.counters, SeriesOf(LabelsOf(gone)), SeriesOf(LabelsOf({key})));
    SetMinusTwice(s.active, gone, {key});
    SetMinusTwice(s.gauges, CleanedGauges(LabelsOf(gone)), CleanedGauges(LabelsOf({key})));
    SetMinusTwice(s.patterns, PatternsOf(gone, s.prevPatterns), PatternsOf({key}, s.prevPatterns - gone));
  }

  lemma SetMinusTwice<T>(s: set<T>, a: set<T>, b: set<T>)
    ensures s - a - b == s - (a + b)
  {
  }

  /** One counter has grown by the rise of its reading, all others are as before. */
  ghost predicate Risen(before: map<Series, nat>, after: map<Series, nat>, series: Series, reading: nat, previous: nat) {
    && ValueOf(after, series) == Grown(ValueOf(before, series), reading, previous)
    && (forall x: Series | x != series :: ValueOf(after, x) == ValueOf(before, x) && (x in after <==> x in before))
  }

  /** The counters of one user have each grown by the rise of their reading, all others are as before. */
  ghost predicate AllRisen(before: map<Series, nat>, after: map<Series, nat>, tags: Label, raw: Raw, previous: Raw) {
    && (forall c: Counter ::
          ValueOf(after, Series(c, tags)) == Grown(ValueOf(before, Series(c, tags)), Of(raw, c), Of(previous, c)))
    && (forall x: Series | x.tags != tags :: ValueOf(after, x) == ValueOf(before, x) && (x in after <==> x in before))
  }

  lemma FiveRises(c0: map<Series, nat>, c1: map<Series, nat>, c2: map<Series, nat>, c3: map<Series, nat>,
                  c4: map<Series, nat>, c5: map<Series, nat>, tags: Label, raw: Raw, previous: Raw)
    requires Risen(c0, c1, Series(MemoryHigh, tags), raw.memoryHigh, previous.memoryHigh)
    requires Risen(c1, c2, Series(ReadBytes, tags), raw.io.readBytes, previous.io.readBytes)
    requires Risen(c2, c3, Series(WriteBytes, tags), raw.io.writeBytes, previous.io.writeBytes)
    requires Risen(c3, c4, Series(ReadOps, tags), raw.io.readOps, previous.io.readOps)
    requires Risen(c4, c5, Series(WriteOps, tags), raw.io.writeOps, previous.io.writeOps)
    ensures AllRisen(c0, c5, tags, raw, previous)
  {
    hide ValueOf, Grown;
    forall c: Counter
      ensures ValueOf(c5, Series(c, tags)) == Grown(ValueOf(c0, Series(c, tags)), Of(raw, c), Of(previous, c))
    {
      match c
      case MemoryHigh =>
      case ReadBytes =>
      case WriteBytes =>
      case ReadOps =>
      case WriteOps =>
    }
  }

  function Relabelled(s: State, uid: Uid, username: string, pattern: string): State {
    var tags, key := LabelOf(uid, username), KeyOf(uid, username);
    var kept := if key in s.prevPatterns && s.prevPatterns[key] != pattern
                then s.patterns - {PatternSeries(tags, s.prevPatterns[key])} else s.patterns;
    s.(patterns := kept + {PatternSeries(tags, pattern)}, prevPatterns := s.prevPatterns[key := pattern])
  }
}
