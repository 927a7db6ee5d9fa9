/** What the exporter's counters and labels say over a whole run. */
module ExporterLaws {
  import opened Common
  import opened Text
  import opened Exporter

  datatype Event =
    | Update(uid: Uid, username: string, raw: Raw)
    | Relabel(uid: Uid, username: string, pattern: string)
    | Cleanup(activeUids: set<Uid>)

  /** One call of the exporter. */
  ghost predicate Follows(s: State, e: Event, t: State) {
    match e
    case Update(uid, username, raw) =>
      && AllRisen(s.counters, t.counters, LabelOf(uid, username), raw, Previous(s, KeyOf(uid, username)))
      && t == s.(active := s.active + {KeyOf(uid, username)},
                 prevHigh := s.prevHigh[KeyOf(uid, username) := raw.memoryHigh],
                 prevIO := s.prevIO[KeyOf(uid, username) := raw.io],
                 gauges := s.gauges + GaugesOf(LabelOf(uid, username), ALL_GAUGES),
                 counters := t.counters)
    case Relabel(uid, username, pattern) => t == Relabelled(s, uid, username, pattern)
    case Cleanup(activeUids) => t == Cleaned(s, Gone(s, activeUids))
  }

  predicate Proper(e: Event) { e.Cleanup? || IsInt(e.uid.id) }

  /** The states before, between and after the calls. */
  ghost predicate IsRun(ss: seq<State>, es: seq<Event>) {
    && |ss| == |es| + 1 && ss[0] == Start
    && forall i | 0 <= i < |es| :: Proper(es[i]) && Follows(ss[i], es[i], ss[i + 1])
  }

  // ------------------------------------------------------------ raw readings

  /** The readings of a user since it was last cleaned up. */
  function History(es: seq<Event>, uid: Uid, username: string): seq<Raw> {
    if es == [] then []
    else
      var before := History(es[..|es| - 1], uid, username);
      match es[|es| - 1]
      case Update(u, name, raw) => if u == uid && name == username then before + [raw] else before
      case Relabel(_, _, _) => before
      case Cleanup(activeUids) => if uid in activeUids then before else []
  }

  function Last(xs: seq<Raw>): Raw { if xs == [] then Raw(0, NO_IO) else xs[|xs| - 1] }

  /** The sum of all rises, from zero. */
  function Rise(xs: seq<Raw>, c: Counter): nat {
    if xs == [] then 0 else Grown(Rise(xs[..|xs| - 1], c), Of(Last(xs), c), Of(Last(xs[..|xs| - 1]), c))
  }

  predicate NeverFalls(xs: seq<Raw>, c: Counter) { forall i | 0 < i < |xs| :: Of(xs[i - 1], c) <= Of(xs[i], c) }

  /** The rises add up to the last reading exactly when no reading fell; otherwise to more. */
  lemma {:induction false} RiseIsLastIff(xs: seq<Raw>, c: Counter)
    ensures Rise(xs, c) >= Of(Last(xs), c)
    ensures Rise(xs, c) == Of(Last(xs), c) <==> NeverFalls(xs, c)
  {
    if xs != [] {
      var n := |xs| - 1;
      RiseIsLastIff(xs[..n], c);
      if n == 0 {
        assert xs[..n] == [];
      } else {
        assert Last(xs[..n]) == xs[n - 1];
        assert NeverFalls(xs, c) <==> NeverFalls(xs[..n], c) && Of(xs[n - 1], c) <= Of(xs[n], c);
      }
    }
  }

  lemma AllListed(c: Counter, g: Gauge)
    ensures c in ALL_COUNTERS && g in ALL_GAUGES
  {
    match c
    case MemoryHigh =>
    case ReadBytes =>
    case WriteBytes =>
    case ReadOps =>
    case WriteOps =>
  }

  // ------------------------------------------------------------ keys

  lemma SplitOnceShape(s: string, c: char)
    requires SplitOnce(s, c).1.Some?
    ensures s == SplitOnce(s, c).0 + [c] + SplitOnce(s, c).1.value
  {
  }

  lemma KeyOfLabel(key: string, uid: Uid, username: string)
    requires Parsed(key) == Some(LabelOf(uid, username))
    ensures key == KeyOf(uid, username)
  {
    SplitOnceShape(key, '_');
  }

  lemma KeysDiffer(u: Uid, a: string, v: Uid, b: string)
    requires IsInt(u.id) && IsInt(v.id) && (u != v || a != b)
    ensures KeyOf(u, a) != KeyOf(v, b) && LabelOf(u, a) != LabelOf(v, b)
  {
    hide KeyOf, Parsed;
    KeyRoundTrip(u, a);
    KeyRoundTrip(v, b);
    AtoiItoa(u.id);
    AtoiItoa(v.id);
  }

  // ------------------------------------------------------------ counters

  /** What the exporter knows about one user matches the user's readings. */
  ghost predicate Exact(s: State, h: seq<Raw>, uid: Uid, username: string) {
    && (KeyOf(uid, username) in s.active <==> h != [])
    && Previous(s, KeyOf(uid, username)) == Last(h)
    && (h == [] ==> KeyOf(uid, username) !in s.prevHigh && KeyOf(uid, username) !in s.prevIO)
    && forall c: Counter :: ValueOf(s.counters, Series(c, LabelOf(uid, username))) == Rise(h, c)
  }

  lemma UpdateIsExact(s: State, t: State, h: seq<Raw>, uid: Uid, username: string, e: Event)
    requires IsInt(uid.id) && Proper(e) && e.Update? && Exact(s, h, uid, username) && Follows(s, e, t)
    ensures Exact(t, if e.uid == uid && e.username == username then h + [e.raw] else h, uid, username)
  {
    hide KeyOf, LabelOf, Grown;
    if e.uid == uid && e.username == username {
      assert (h + [e.raw])[..|h|] == h;
    } else {
      KeysDiffer(e.uid, e.username, uid, username);
    }
  }

  lemma CleanupIsExact(s: State, t: State, h: seq<Raw>, uid: Uid, username: string, activeUids: set<Uid>)
    requires IsInt(uid.id) && Exact(s, h, uid, username) && t == Cleaned(s, Gone(s, activeUids))
    ensures Exact(t, if uid in activeUids then h else [], uid, username)
  {
    var key, tags, gone := KeyOf(uid, username), LabelOf(uid, username), Gone(s, activeUids);
    KeyRoundTrip(uid, username);
    assert tags in LabelsOf(gone) <==> key in gone by {
      if tags in LabelsOf(gone) {
        var k :| k in gone && Parsed(k) == Some(tags);
        KeyOfLabel(k, uid, username);
      }
    }
    hide KeyOf, LabelOf, Parsed, UidOf, LabelsOf;
    forall c: Counter
      ensures ValueOf(t.counters, Series(c, tags)) == if key in gone then 0 else ValueOf(s.counters, Series(c, tags))
    {
      AllListed(c, CPU);
      assert Series(c, tags) in SeriesOf(LabelsOf(gone)) <==> key in gone;
    }
  }

  /** In every run, each counter is the sum of the rises of its readings since the user was last cleaned up. */
  lemma {:induction false} CountersAreRises(ss: seq<State>, es: seq<Event>, uid: Uid, username: string)
    requires IsRun(ss, es) && IsInt(uid.id)
    ensures Exact(ss[|es|], History(es, uid, username), uid, username)
  {
    if es != [] {
      var n := |es| - 1;
      hide Exact, Follows;
      CountersAreRises(ss[..n + 1], es[..n], uid, username);
      var h := History(es[..n], uid, username);
      assert Follows(ss[n], es[n], ss[n + 1]);
      match es[n]
      case Update(_, _, _) => UpdateIsExact(ss[n], ss[n + 1], h, uid, username, es[n]);
      case Relabel(u, name, pattern) => RelabelIsExact(ss[n], ss[n + 1], h, uid, username, es[n]);
      case Cleanup(activeUids) => CleanupStep(ss[n], ss[n + 1], h, uid, username, activeUids);
    } else {
      StartIsExact(uid, username);
    }
  }

  lemma StartIsExact(uid: Uid, username: string)
    ensures Exact(Start, [], uid, username)
  {
  }

  lemma RelabelIsExact(s: State, t: State, h: seq<Raw>, uid: Uid, username: string, e: Event)
    requires e.Relabel? && Exact(s, h, uid, username) && Follows(s, e, t)
    ensures Exact(t, h, uid, username)
  {
  }

  lemma CleanupStep(s: State, t: State, h: seq<Raw>, uid: Uid, username: string, activeUids: set<Uid>)
    requires IsInt(uid.id) && Exact(s, h, uid, username) && Follows(s, Cleanup(activeUids), t)
    ensures Exact(t, if uid in activeUids then h else [], uid, username)
  {
    CleanupIsExact(s, t, h, uid, username, activeUids);
  }

  /** A counter is never below the last reading, and equal to it exactly when the readings never fell. */
  lemma CounterMeansReading(ss: seq<State>, es: seq<Event>, uid: Uid, username: string, c: Counter)
    requires IsRun(ss, es) && IsInt(uid.id)
    ensures var h := History(es, uid, username);
            var value := ValueOf(ss[|es|].counters, Series(c, LabelOf(uid, username)));
            value >= Of(Last(h), c) && (value == Of(Last(h), c) <==> NeverFalls(h, c))
  {
    CountersAreRises(ss, es, uid, username);
    RiseIsLastIff(History(es, uid, username), c);
  }

  /** No call but a cleanup of the user itself lets one of its counters fall. */
  lemma CountersNeverFall(ss: seq<State>, es: seq<Event>, n: nat, uid: Uid, username: string, c: Counter)
    requires IsRun(ss, es) && IsInt(uid.id) && n < |es| && !(es[n].Cleanup? && uid !in es[n].activeUids)
    ensures var series := Series(c, LabelOf(uid, username));
            ValueOf(ss[n].counters, series) <= ValueOf(ss[n + 1].counters, series)
  {
    assert es[..n + 1][..n] == es[..n];
    RunPrefix(ss, es, n);
    RunPrefix(ss, es, n + 1);
    CountersAreRises(ss[..n + 1], es[..n], uid, username);
    CountersAreRises(ss[..n + 2], es[..n + 1], uid, username);
    var h := History(es[..n], uid, username);
    if es[n].Update? {
      assert (h + [es[n].raw])[..|h|] == h;
    }
  }

  lemma RunPrefix(ss: seq<State>, es: seq<Event>, n: nat)
    requires IsRun(ss, es) && n <= |es|
    ensures IsRun(ss[..n + 1], es[..n])
  {
    hide Follows;
  }

  // ------------------------------------------------------------ labels

  predicate Made(key: string) { Parsed(key).Some? && UidOf(key).Some? }

  /** Every series of a counter or a cleaned gauge belongs to a tracked key, and so does every pattern label. */
  ghost predicate Tracked(s: State) {
    && (forall k | k in s.active :: Made(k))
    && (forall k | k in s.prevPatterns :: Made(k))
    && (forall x | x in s.counters :: x.tags in LabelsOf(s.active))
    && (forall g | g in s.gauges && g.gauge !in KEPT :: g.tags in LabelsOf(s.active))
    && s.patterns == PatternsOf(s.prevPatterns.Keys, s.prevPatterns)
  }

  lemma LabelsGrow(keys: set<string>, key: string, tags: Label)
    requires Parsed(key) == Some(tags)
    ensures LabelsOf(keys + {key}) == LabelsOf(keys) + {tags}
  {
    hide Parsed;
    assert key in keys + {key};
  }

  lemma CountersStayLabelled(before: map<Series, nat>, after: map<Series, nat>, tags: Label, raw: Raw, prev: Raw)
    requires AllRisen(before, after, tags, raw, prev)
    ensures forall x | x in after :: x in before || x.tags == tags
  {
    hide Grown;
  }

  lemma UpdateIsTracked(s: State, t: State, e: Event)
    requires Tracked(s) && e.Update? && Proper(e) && Follows(s, e, t)
    ensures Tracked(t)
  {
    var key, tags := KeyOf(e.uid, e.username), LabelOf(e.uid, e.username);
    KeyRoundTrip(e.uid, e.username);
    hide KeyOf, LabelOf, Parsed, UidOf;
    LabelsGrow(s.active, key, tags);
    CountersStayLabelled(s.counters, t.counters, tags, e.raw, Previous(s, key));
    hide LabelsOf, AllRisen, PatternsOf;
    assert t.active == s.active + {key};
    assert forall x | x in t.counters :: x.tags in LabelsOf(t.active);
    assert forall g | g in t.gauges && g.gauge !in KEPT :: g.tags in LabelsOf(t.active);
  }

  lemma RelabelIsTracked(s: State, t: State, e: Event)
    requires Tracked(s) && e.Relabel? && Proper(e) && Follows(s, e, t)
    ensures Tracked(t)
  {
    var key, tags := KeyOf(e.uid, e.username), LabelOf(e.uid, e.username);
    KeyRoundTrip(e.uid, e.username);
    forall k | k in t.prevPatterns && Parsed(k) == Some(tags) ensures k == key {
      KeyOfLabel(k, e.uid, e.username);
    }
    hide KeyOf, LabelOf, Parsed, UidOf, LabelsOf;
    PatternsAfter(s, key, tags, e.pattern);
  }

  lemma PatternsAfter(s: State, key: string, tags: Label, pattern: string)
    requires s.patterns == PatternsOf(s.prevPatterns.Keys, s.prevPatterns)
    requires Parsed(key) == Some(tags) && forall k | k in s.prevPatterns && Parsed(k) == Some(tags) :: k == key
    ensures var kept := if key in s.prevPatterns && s.prevPatterns[key] != pattern
                        then s.patterns - {PatternSeries(tags, s.prevPatterns[key])} else s.patterns;
            var prev := s.prevPatterns[key := pattern];
            kept + {PatternSeries(tags, pattern)} == PatternsOf(prev.Keys, prev)
  {
    hide Parsed;
    var prev := s.prevPatterns[key := pattern];
    assert forall k | k in prev :: k == key || prev[k] == s.prevPatterns[k];
    assert key in prev.Keys;
  }

  lemma CleanupIsTracked(s: State, t: State, activeUids: set<Uid>)
    requires Tracked(s) && t == Cleaned(s, Gone(s, activeUids))
    ensures Tracked(t)
    ensures forall k | k in t.active :: UidOf(k).Some? && UidOf(k).value in activeUids
  {
    var gone := Gone(s, activeUids);
    hide Parsed, UidOf;
    assert forall k | k in s.active && k !in gone :: k in t.active;
    forall l | l in LabelsOf(s.active) && l !in LabelsOf(gone) ensures l in LabelsOf(t.active) {
      var k :| k in s.active && Parsed(k) == Some(l);
      assert k !in gone;
    }
    hide LabelsOf;
    forall x | x in t.counters ensures x.tags in LabelsOf(t.active) {
      AllListed(x.counter, CPU);
      assert x in s.counters;
      assert x == Series(x.counter, x.tags);
    }
    forall g | g in t.gauges && g.gauge !in KEPT ensures g.tags in LabelsOf(t.active) {
      AllListed(ReadOps, g.gauge);
      assert g in s.gauges;
      assert g == GaugeSeries(g.gauge, g.tags);
    }
    LabelsAreKeys(s.prevPatterns, gone);
  }

  /** Dropping keys from the patterns drops their labels and no others. */
  lemma LabelsAreKeys(prev: map<string, string>, gone: set<string>)
    requires forall k | k in prev || k in gone :: Made(k)
    ensures PatternsOf(prev.Keys, prev) - PatternsOf(gone, prev) == PatternsOf((prev - gone).Keys, prev - gone)
  {
    forall j, k | j in prev && k in gone && Parsed(j) == Parsed(k) ensures j == k {
      SplitOnceShape(j, '_');
      SplitOnceShape(k, '_');
    }
    hide Parsed;
  }

  lemma {:induction false} RunIsTracked(ss: seq<State>, es: seq<Event>)
    requires IsRun(ss, es)
    ensures Tracked(ss[|es|])
  {
    if es != [] {
      var n := |es| - 1;
      hide Follows, Tracked;
      RunIsTracked(ss[..n + 1], es[..n]);
      assert Follows(ss[n], es[n], ss[n + 1]);
      match es[n]
      case Update(_, _, _) => UpdateIsTracked(ss[n], ss[n + 1], es[n]);
      case Relabel(_, _, _) => RelabelIsTracked(ss[n], ss[n + 1], es[n]);
      case Cleanup(activeUids) => CleanupTracks(ss[n], ss[n + 1], activeUids);
    }
  }

  lemma CleanupTracks(s: State, t: State, activeUids: set<Uid>)
    requires Tracked(s) && Follows(s, Cleanup(activeUids), t)
    ensures Tracked(t) && forall k | k in t.active :: UidOf(k).Some? && UidOf(k).value in activeUids
  {
    CleanupIsTracked(s, t, activeUids);
  }

  /** Right after a cleanup every counter, and every gauge but the two averages, is about an active user. */
  lemma CleanupLeavesActive(ss: seq<State>, es: seq<Event>, activeUids: set<Uid>)
    requires IsRun(ss, es) && es != [] && es[|es| - 1] == Cleanup(activeUids)
    ensures var s := ss[|es|];
            && (forall k | k in s.active :: UidOf(k).Some? && UidOf(k).value in activeUids)
            && (forall x | x in s.counters :: Atoi(x.tags.uid).Some? && Uid(Atoi(x.tags.uid).value) in activeUids)
            && (forall g | g in s.gauges && g.gauge !in KEPT ::
                  Atoi(g.tags.uid).Some? && Uid(Atoi(g.tags.uid).value) in activeUids)
  {
    var n := |es| - 1;
    RunPrefix(ss, es, n);
    RunIsTracked(ss[..n + 1], es[..n]);
    assert Follows(ss[n], es[n], ss[n + 1]);
    CleanupTracks(ss[n], ss[n + 1], activeUids);
    var s := ss[n + 1];
    hide Follows, SplitOnce, Atoi;
    forall l | l in LabelsOf(s.active) ensures Atoi(l.uid).Some? && Uid(Atoi(l.uid).value) in activeUids {
      var k :| k in s.active && Parsed(k) == Some(l);
      assert UidOf(k).Some? && UidOf(k).value in activeUids;
    }
  }

  /** At any time a uid has at most one live pattern label under any one name. */
  lemma OnePatternPerName(ss: seq<State>, es: seq<Event>, a: PatternSeries, b: PatternSeries)
    requires IsRun(ss, es) && a in ss[|es|].patterns && b in ss[|es|].patterns && a.tags == b.tags
    ensures a == b
  {
    RunIsTracked(ss, es);
    var s := ss[|es|];
    var j :| j in s.prevPatterns && Parsed(j).Some? && a == PatternSeries(Parsed(j).value, s.prevPatterns[j]);
    var k :| k in s.prevPatterns && Parsed(k).Some? && b == PatternSeries(Parsed(k).value, s.prevPatterns[k]);
    SplitOnceShape(j, '_');
    SplitOnceShape(k, '_');
  }

  /** The names under which a uid was labelled, but for those cleaned up since. A name is cleaned up if it had an update. */
  function Names(es: seq<Event>, uid: Uid): set<string> {
    if es == [] then {}
    else
      var earlier := es[..|es| - 1];
      var before := Names(earlier, uid);
      match es[|es| - 1]
      case Update(_, _, _) => before
      case Relabel(u, name, _) => if u == uid then before + {name} else before
      case Cleanup(activeUids) =>
        if uid in activeUids then before else set name | name in before && History(earlier, uid, name) == []
  }

  lemma {:induction false} NamesAreLabelled(ss: seq<State>, es: seq<Event>, uid: Uid, name: string)
    requires IsRun(ss, es) && IsInt(uid.id)
    ensures KeyOf(uid, name) in ss[|es|].prevPatterns <==> name in Names(es, uid)
  {
    if es != [] {
      var n := |es| - 1;
      NamesAreLabelled(ss[..n + 1], es[..n], uid, name);
      CountersAreRises(ss[..n + 1], es[..n], uid, name);
      assert Follows(ss[n], es[n], ss[n + 1]) && Proper(es[n]);
      match es[n]
      case Update(_, _, _) =>
      case Relabel(u, other, pattern) =>
        if u != uid || other != name {
          KeysDiffer(u, other, uid, name);
        }
        hide KeyOf, LabelOf;
      case Cleanup(activeUids) =>
        KeyRoundTrip(uid, name);
        hide KeyOf, Parsed, UidOf;
    }
  }

  function LabelsOfUid(patterns: set<PatternSeries>, uid: Uid): set<PatternSeries> {
    set p | p in patterns && p.tags.uid == Itoa(uid.id)
  }

  lemma LabelOfUid(ss: seq<State>, es: seq<Event>, uid: Uid, p: PatternSeries)
    requires IsRun(ss, es) && IsInt(uid.id) && p in LabelsOfUid(ss[|es|].patterns, uid)
    ensures p.tags == LabelOf(uid, p.tags.username) && p.tags.username in Names(es, uid)
  {
    RunIsTracked(ss, es);
    var s := ss[|es|];
    var k :| k in s.prevPatterns && Parsed(k).Some? && p == PatternSeries(Parsed(k).value, s.prevPatterns[k]);
    KeyOfLabel(k, uid, p.tags.username);
    NamesAreLabelled(ss, es, uid, p.tags.username);
  }

  lemma NameHasLabel(ss: seq<State>, es: seq<Event>, uid: Uid, name: string) returns (p: PatternSeries)
    requires IsRun(ss, es) && IsInt(uid.id) && name in Names(es, uid)
    ensures p in LabelsOfUid(ss[|es|].patterns, uid) && p.tags == LabelOf(uid, name)
  {
    RunIsTracked(ss, es);
    NamesAreLabelled(ss, es, uid, name);
    KeyRoundTrip(uid, name);
    p := PatternSeries(LabelOf(uid, name), ss[|es|].prevPatterns[KeyOf(uid, name)]);
    hide Parsed, KeyOf;
  }

  ghost predicate AtMostOne<T(!new)>(s: set<T>) { forall a, b | a in s && b in s :: a == b }

  /** A uid has at most one live pattern label exactly if it was labelled under one name only. */
  lemma OneLabelPerUidIff(ss: seq<State>, es: seq<Event>, uid: Uid)
    requires IsRun(ss, es) && IsInt(uid.id)
    ensures AtMostOne(LabelsOfUid(ss[|es|].patterns, uid)) <==> AtMostOne(Names(es, uid))
  {
    var labels := LabelsOfUid(ss[|es|].patterns, uid);
    hide IsRun, LabelsOfUid, Names;
    if AtMostOne(labels) {
      forall m, n | m in Names(es, uid) && n in Names(es, uid) ensures m == n {
        var a := NameHasLabel(ss, es, uid, m);
        var b := NameHasLabel(ss, es, uid, n);
      }
    }
    if AtMostOne(Names(es, uid)) {
      forall a, b | a in labels && b in labels ensures a == b {
        LabelOfUid(ss, es, uid, a);
        LabelOfUid(ss, es, uid, b);
        SameNameSameLabel(ss, es, uid, a, b);
      }
    }
  }

  lemma SameNameSameLabel(ss: seq<State>, es: seq<Event>, uid: Uid, a: PatternSeries, b: PatternSeries)
    requires IsRun(ss, es) && a in LabelsOfUid(ss[|es|].patterns, uid) && b in LabelsOfUid(ss[|es|].patterns, uid)
    requires a.tags == b.tags
    ensures a == b
  {
    OnePatternPerName(ss, es, a, b);
  }

  /** After a rename both labels are live, and a cleanup spares them as long as the uid is active. */
  lemma TwoNames(uid: Uid) returns (ss: seq<State>)
    requires IsInt(uid.id)
    ensures IsRun(ss, [Relabel(uid, "alice", "mixed"), Relabel(uid, "bob", "always_on"), Cleanup({uid})])
    ensures PatternSeries(LabelOf(uid, "alice"), "mixed") in ss[3].patterns
    ensures PatternSeries(LabelOf(uid, "bob"), "always_on") in ss[3].patterns
  {
    var s1 := Relabelled(Start, uid, "alice", "mixed");
    var s2 := Relabelled(s1, uid, "bob", "always_on");
    assert "alice"[0] != "bob"[0];
    KeysDiffer(uid, "alice", uid, "bob");
    assert Gone(s2, {uid}) == {};
    CleanNothing(s2);
    ss := [Start, s1, s2, s2];
    hide KeyOf, LabelOf;
  }

  /** A name under which the uid was labelled without an update since its last cleanup. */
  ghost predicate OnlyLabelled(es: seq<Event>, uid: Uid, name: string) {
    name in Names(es, uid) && History(es, uid, name) == []
  }

  /** A cleanup leaves a pattern label of an inactive uid exactly if the uid has such a name. */
  lemma StaleLabelIff(ss: seq<State>, before: seq<Event>, activeUids: set<Uid>, uid: Uid)
    requires IsRun(ss, before + [Cleanup(activeUids)]) && IsInt(uid.id) && uid !in activeUids
    ensures LabelsOfUid(ss[|before| + 1].patterns, uid) != {} <==> exists name :: OnlyLabelled(before, uid, name)
  {
    var es := before + [Cleanup(activeUids)];
    assert es[..|before|] == before;
    assert forall name :: name in Names(es, uid) <==> OnlyLabelled(before, uid, name);
    hide IsRun, OnlyLabelled, Names, LabelsOfUid;
    if LabelsOfUid(ss[|es|].patterns, uid) != {} {
      var p :| p in LabelsOfUid(ss[|es|].patterns, uid);
      LabelOfUid(ss, es, uid, p);
      assert OnlyLabelled(before, uid, p.tags.username);
    }
    if name :| OnlyLabelled(before, uid, name) {
      var p := NameHasLabel(ss, es, uid, name);
    }
  }

  /** A user is cleaned up and labelled once more, and the next cleanup spares the label. */
  function LateLabel(uid: Uid, name: string): seq<Event> {
    [Update(uid, name, Raw(0, NO_IO)), Cleanup({}), Relabel(uid, name, "mixed"), Cleanup({})]
  }

  lemma LabelOutlivesUser(uid: Uid, name: string) returns (ss: seq<State>)
    requires IsInt(uid.id)
    ensures IsRun(ss, LateLabel(uid, name)) && LabelsOfUid(ss[4].patterns, uid) != {}
  {
    var first := [Update(uid, name, Raw(0, NO_IO)), Cleanup({})];
    ss := AveragesOutliveUser(uid, name);
    var s3 := Relabelled(ss[2], uid, name, "mixed");
    hide Relabelled, Cleaned, OnlyLabelled, LabelsOfUid;
    ss := RunMore(ss, first, Relabel(uid, name, "mixed"), s3);
    LateLabelIsBare(uid, name);
    var before := first + [Relabel(uid, name, "mixed")];
    ss := RunMore(ss, before, Cleanup({}), Cleaned(s3, Gone(s3, {})));
    assert before + [Cleanup({})] == LateLabel(uid, name);
    StaleLabelIff(ss, before, {}, uid);
    assert OnlyLabelled(before, uid, name);
  }

  lemma LateLabelIsBare(uid: Uid, name: string)
    ensures OnlyLabelled([Update(uid, name, Raw(0, NO_IO)), Cleanup({})] + [Relabel(uid, name, "mixed")], uid, name)
  {
    var es := [Update(uid, name, Raw(0, NO_IO)), Cleanup({})] + [Relabel(uid, name, "mixed")];
    assert es[..2] == [Update(uid, name, Raw(0, NO_IO)), Cleanup({})] && es[..2][1] == Cleanup({});
  }

  lemma RunMore(ss: seq<State>, es: seq<Event>, e: Event, t: State) returns (more: seq<State>)
    requires IsRun(ss, es) && Proper(e) && Follows(ss[|es|], e, t)
    ensures more == ss + [t] && IsRun(more, es + [e])
  {
    hide Follows;
    more := ss + [t];
  }

  /** The pattern of the last label of a uid under a name, unless that was cleaned up since. */
  function LastLabel(es: seq<Event>, uid: Uid, name: string): Option<string> {
    if es == [] then None
    else
      var earlier := es[..|es| - 1];
      var before := LastLabel(earlier, uid, name);
      match es[|es| - 1]
      case Update(_, _, _) => before
      case Relabel(u, other, pattern) => if u == uid && other == name then Some(pattern) else before
      case Cleanup(activeUids) => if uid in activeUids || History(earlier, uid, name) == [] then before else None
  }

  lemma {:induction false} LastLabelIs(ss: seq<State>, es: seq<Event>, uid: Uid, name: string)
    requires IsRun(ss, es) && IsInt(uid.id)
    ensures var prev, last := ss[|es|].prevPatterns, LastLabel(es, uid, name);
            (KeyOf(uid, name) in prev <==> last.Some?) && (last.Some? ==> prev[KeyOf(uid, name)] == last.value)
  {
    if es != [] {
      var n := |es| - 1;
      LastLabelIs(ss[..n + 1], es[..n], uid, name);
      CountersAreRises(ss[..n + 1], es[..n], uid, name);
      assert Follows(ss[n], es[n], ss[n + 1]) && Proper(es[n]);
      match es[n]
      case Update(_, _, _) =>
      case Relabel(u, other, pattern) =>
        if u != uid || other != name {
          KeysDiffer(u, other, uid, name);
        }
        hide KeyOf, LabelOf;
      case Cleanup(activeUids) =>
        KeyRoundTrip(uid, name);
        hide KeyOf, Parsed, UidOf;
    }
  }

  /** In every run the live pattern label of a uid and name is the last one, and there is no other. */
  lemma LabelIff(ss: seq<State>, es: seq<Event>, uid: Uid, name: string, pattern: string)
    requires IsRun(ss, es) && IsInt(uid.id)
    ensures PatternSeries(LabelOf(uid, name), pattern) in ss[|es|].patterns <==> LastLabel(es, uid, name) == Some(pattern)
  {
    RunIsTracked(ss, es);
    LastLabelIs(ss, es, uid, name);
    KeyRoundTrip(uid, name);
    var s := ss[|es|];
    if PatternSeries(LabelOf(uid, name), pattern) in s.patterns {
      var k :| k in s.prevPatterns && Parsed(k) == Some(LabelOf(uid, name)) && s.prevPatterns[k] == pattern;
      KeyOfLabel(k, uid, name);
    }
    hide KeyOf, LabelOf, Parsed, LastLabel, IsRun;
  }

  // ------------------------------------------------------------ the other gauges

  lemma GaugeStep(s: State, t: State, e: Event, h: seq<Raw>, uid: Uid, name: string, g: Gauge)
    requires IsInt(uid.id) && Proper(e) && Follows(s, e, t) && Exact(s, h, uid, name) && g !in KEPT
    requires GaugeSeries(g, LabelOf(uid, name)) in s.gauges <==> h != []
    ensures GaugeSeries(g, LabelOf(uid, name)) in t.gauges
       <==> if e.Update? && e.uid == uid && e.username == name then true
            else if e.Cleanup? && uid !in e.activeUids then false else h != []
  {
    AllListed(ReadOps, g);
    var key, tags := KeyOf(uid, name), LabelOf(uid, name);
    KeyRoundTrip(uid, name);
    match e {
      case Update(u, other, _) =>
        if u != uid || other != name {
          KeysDiffer(u, other, uid, name);
        }
        hide KeyOf, LabelOf, Parsed, UidOf;
      case Relabel(_, _, _) =>
      case Cleanup(activeUids) =>
        GoneLabel(s, activeUids, uid, name);
        hide KeyOf, LabelOf, Parsed, UidOf, LabelsOf;
        assert GaugeSeries(g, tags) in CleanedGauges(LabelsOf(Gone(s, activeUids))) <==> tags in LabelsOf(Gone(s, activeUids));
    }
  }

  lemma GoneLabel(s: State, activeUids: set<Uid>, uid: Uid, name: string)
    requires IsInt(uid.id)
    ensures LabelOf(uid, name) in LabelsOf(Gone(s, activeUids)) <==> KeyOf(uid, name) in s.active && uid !in activeUids
  {
    KeyRoundTrip(uid, name);
    if LabelOf(uid, name) in LabelsOf(Gone(s, activeUids)) {
      var k :| k in Gone(s, activeUids) && Parsed(k) == Some(LabelOf(uid, name));
      KeyOfLabel(k, uid, name);
    }
    hide KeyOf, LabelOf, Parsed, UidOf;
  }

  /** All other gauges of a user are exported exactly from an update to its next cleanup. */
  lemma {:induction false} GaugesIff(ss: seq<State>, es: seq<Event>, uid: Uid, name: string, g: Gauge)
    requires IsRun(ss, es) && IsInt(uid.id) && g in {CPU, Memory, Processes, Limited}
    ensures GaugeSeries(g, LabelOf(uid, name)) in ss[|es|].gauges <==> History(es, uid, name) != []
  {
    if es != [] {
      var n := |es| - 1;
      GaugesIff(ss[..n + 1], es[..n], uid, name, g);
      CountersAreRises(ss[..n + 1], es[..n], uid, name);
      assert Follows(ss[n], es[n], ss[n + 1]) && Proper(es[n]);
      hide Follows, Exact, LabelOf;
      GaugeStep(ss[n], ss[n + 1], es[n], History(es[..n], uid, name), uid, name, g);
    }
  }

  // ------------------------------------------------------------ the average gauges

  /** The user was exported under this name at least once. */
  ghost predicate WasUpdated(es: seq<Event>, uid: Uid, username: string) {
    exists n :: 0 <= n < |es| && es[n].Update? && es[n].uid == uid && es[n].username == username
  }

  lemma WasUpdatedNext(es: seq<Event>, uid: Uid, username: string)
    requires es != []
    ensures var n := |es| - 1;
            WasUpdated(es, uid, username)
            <==> WasUpdated(es[..n], uid, username) || (es[n].Update? && es[n].uid == uid && es[n].username == username)
  {
    var n := |es| - 1;
    if WasUpdated(es[..n], uid, username) {
      var k :| 0 <= k < n && es[..n][k].Update? && es[..n][k].uid == uid && es[..n][k].username == username;
      assert es[k] == es[..n][k];
    }
    if WasUpdated(es, uid, username) {
      var k :| 0 <= k < |es| && es[k].Update? && es[k].uid == uid && es[k].username == username;
      assert k < n ==> es[..n][k] == es[k];
    }
  }

  /** The two average gauges of a user are exported exactly if the user ever was; no cleanup removes them. */
  lemma {:induction false} AveragesIff(ss: seq<State>, es: seq<Event>, uid: Uid, username: string, g: Gauge)
    requires IsRun(ss, es) && IsInt(uid.id) && g in KEPT
    ensures GaugeSeries(g, LabelOf(uid, username)) in ss[|es|].gauges <==> WasUpdated(es, uid, username)
  {
    if es != [] {
      var n := |es| - 1;
      AveragesIff(ss[..n + 1], es[..n], uid, username, g);
      WasUpdatedNext(es, uid, username);
      assert Follows(ss[n], es[n], ss[n + 1]) && Proper(es[n]);
      if es[n].Update? {
        AllListed(ReadOps, g);
        if es[n].uid != uid || es[n].username != username {
          KeysDiffer(es[n].uid, es[n].username, uid, username);
        }
        hide LabelOf, KeyOf;
      }
      hide WasUpdated;
    }
  }

  /** A cleanup leaves a gauge of an inactive user exactly if such a user was ever exported. */
  lemma StaleGaugeIff(ss: seq<State>, es: seq<Event>, activeUids: set<Uid>)
    requires IsRun(ss, es) && es != [] && es[|es| - 1] == Cleanup(activeUids)
    ensures (exists g, uid, name :: StaleGauge(ss[|es|], activeUids, g, uid, name))
       <==> exists uid: Uid, name :: IsInt(uid.id) && uid !in activeUids && WasUpdated(es, uid, name)
  {
    if g, uid, name :| StaleGauge(ss[|es|], activeUids, g, uid, name) {
      if g !in KEPT {
        CleanupLeavesActive(ss, es, activeUids);
        AtoiItoa(uid.id);
        assert false;
      }
      AveragesIff(ss, es, uid, name, g);
    }
    if uid: Uid, name :| IsInt(uid.id) && uid !in activeUids && WasUpdated(es, uid, name) {
      AveragesIff(ss, es, uid, name, CPUAverage);
      assert StaleGauge(ss[|es|], activeUids, CPUAverage, uid, name);
    }
  }

  ghost predicate StaleGauge(s: State, activeUids: set<Uid>, g: Gauge, uid: Uid, name: string) {
    IsInt(uid.id) && uid !in activeUids && GaugeSeries(g, LabelOf(uid, name)) in s.gauges
  }

  /** One update and one cleanup are enough. */
  lemma AveragesOutliveUser(uid: Uid, name: string) returns (ss: seq<State>)
    requires IsInt(uid.id)
    ensures IsRun(ss, [Update(uid, name, Raw(0, NO_IO)), Cleanup({})])
    ensures StaleGauge(ss[2], {}, CPUAverage, uid, name) && StaleGauge(ss[2], {}, CPUEMA, uid, name)
  {
    var key, tags := KeyOf(uid, name), LabelOf(uid, name);
    var s1 := Start.(active := {key}, prevHigh := map[key := 0], prevIO := map[key := NO_IO],
                     gauges := GaugesOf(tags, ALL_GAUGES));
    var s2 := Cleaned(s1, Gone(s1, {}));
    ss := [Start, s1, s2];
    hide KeyOf, LabelOf, Parsed, UidOf;
  }
}
