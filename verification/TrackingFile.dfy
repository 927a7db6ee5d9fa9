/**
  The tracking file of the cgroup manager: one `uid:path` line for every cgroup it created,
  so that a restarted daemon finds them again. Also the pid lists of `cgroup.procs`.
*/
module TrackingFile {
  import opened Common
  import opened Text

  // ------------------------------------------------------------ lines of the file

  datatype Entry = Entry(uid: Uid, path: string)

  /** The uid `removeCgroupFromFile` compares, read from a line with or without a path. */
  function LineUid(line: string): Option<int> { Atoi(SplitOnce(line, ':').0) }

  /** What `loadExistingCgroups` reads from a line. */
  function ParseLine(line: string): Option<Entry> {
    var (head, tail) := SplitOnce(line, ':');
    if line == "" || tail.None? || Atoi(head).None? then None
    else Some(Entry(Uid(Atoi(head).value), tail.value))
  }

  function Line(uid: Uid, path: string): string { Itoa(uid.id) + ":" + path }

  function PathOf(base: string, uid: Uid): string { base + "/user_" + Itoa(uid.id) }

  lemma ParsePrinted(uid: Uid, path: string)
    requires IsInt(uid.id)
    ensures ParseLine(Line(uid, path)) == Some(Entry(uid, path)) && LineUid(Line(uid, path)) == Some(uid.id)
  {
    var head := Itoa(uid.id);
    SplitOnceIs(head, ':', path);
    assert Line(uid, path) == head + [':'] + path;
    AtoiItoa(uid.id);
  }

  lemma PathsDiffer(base: string, u: Uid, v: Uid)
    requires IsInt(u.id) && IsInt(v.id) && PathOf(base, u) == PathOf(base, v)
    ensures u == v
  {
    var n := |base + "/user_"|;
    assert Itoa(u.id) == PathOf(base, u)[n..] == PathOf(base, v)[n..] == Itoa(v.id);
    AtoiItoa(u.id);
    AtoiItoa(v.id);
  }

  /** The lines that stay when a user is removed. */
  function Kept(lines: seq<string>, uid: Uid): seq<string> {
    if lines == [] then []
    else
      var last := lines[|lines| - 1];
      Kept(lines[..|lines| - 1], uid) + if last == "" || LineUid(last) == Some(uid.id) then [] else [last]
  }

  /** The map read at startup: the last entry of a user, if its directory exists. */
  function Loaded(lines: seq<string>, dirs: set<string>): map<Uid, string> {
    if lines == [] then map[]
    else
      var before := Loaded(lines[..|lines| - 1], dirs);
      match ParseLine(lines[|lines| - 1])
      case None => before
      case Some(e) => if e.path in dirs then before[e.uid := e.path] else before
  }

  // ------------------------------------------------------------ the manager

  datatype Store = Store(created: map<Uid, string>, file: Option<string>, dirs: set<string>)

  function Content(file: Option<string>): string { if file.None? then "" else file.value }

  function Appended(file: Option<string>, line: string): Option<string> { Some(Content(file) + line + "\n") }

  function Rewritten(file: Option<string>, uid: Uid): Option<string> {
    if file.None? then None else Some(Join(Kept(ScanLines(file.value), uid), "\n") + "\n")
  }

  function Create(s: Store, base: string, uid: Uid, mkdirOk: bool, saveOk: bool): Store {
    if uid in s.created || !mkdirOk then s
    else
      var path := PathOf(base, uid);
      Store(s.created[uid := path], if saveOk then Appended(s.file, Line(uid, path)) else s.file, s.dirs + {path})
  }

  function Cleanup(s: Store, base: string, uid: Uid, removable: bool, rewriteOk: bool): Store {
    var path := Lookup(s.created, uid, PathOf(base, uid));
    if path !in s.dirs || !removable then s
    else Store(s.created - {uid}, if rewriteOk then Rewritten(s.file, uid) else s.file, s.dirs - {path})
  }

  function Recovered(s: Store): map<Uid, string> { Loaded(ScanLines(Content(s.file)), s.dirs) }

  /** The manager's map and the parts of the file system it works on. */
  class CgroupManager {
    const base: string
    var createdCgroups: map<Uid, string>
    var file: Option<string>
    var dirs: set<string>

    function View(): Store
      reads this
    {
      Store(createdCgroups, file, dirs)
    }

    /** A started daemon: it reads what an earlier one left behind. */
    constructor (base: string, file: Option<string>, dirs: set<string>)
      ensures this.base == base && this.file == file && this.dirs == dirs
      ensures createdCgroups == Recovered(Store(map[], file, dirs))
    {
      this.base, this.file, this.dirs, createdCgroups := base, file, dirs, map[];
      new;
      LoadExistingCgroups();
    }

    static method ReadLine(line: string) returns (entry: Option<Entry>)
      ensures entry == ParseLine(line)
    {
      hide SplitOnce, Atoi;
      if line == "" {
        return None;
      }
      var parts := SplitOnce(line, ':');
      if parts.1.None? {
        return None;
      }
      var uid := Atoi(parts.0);
      if uid.None? {
        return None;
      }
      return Some(Entry(Uid(uid.value), parts.1.value));
    }

    method LoadExistingCgroups()
      requires createdCgroups == map[]
      modifies this`createdCgroups
      ensures createdCgroups == Recovered(View())
    {
      if file.None? {
        return;
      }
      hide ParseLine;
      var lines := ScanLines(file.value);
      for k := 0 to |lines|
        invariant createdCgroups == Loaded(lines[..k], dirs)
      {
        assert lines[..k + 1][..k] == lines[..k];
        var entry := ReadLine(lines[k]);
        if entry.Some? {
          // The entry counts only if its directory still exists.
          if entry.value.path in dirs {
            createdCgroups := createdCgroups[entry.value.uid := entry.value.path];
          }
        }
      }
      assert lines[..|lines|] == lines;
    }

    method SaveCgroupToFile(uid: Uid, path: string)
      modifies this`file
      ensures file == Appended(old(file), Line(uid, path))
    {
      file := Some(Content(file) + Line(uid, path) + "\n");
    }

    method RemoveCgroupFromFile(uid: Uid)
      modifies this`file
      ensures file == Rewritten(old(file), uid)
    {
      if file.None? {
        return;
      }
      var scanned := ScanLines(file.value);
      var lines := [];
      for k := 0 to |scanned|
        invariant lines == Kept(scanned[..k], uid)
      {
        assert scanned[..k + 1][..k] == scanned[..k];
        var line := scanned[k];
        if line == "" {
          continue;
        }
        var lineUid := Atoi(SplitOnce(line, ':').0);
        if lineUid != Some(uid.id) {
          lines := lines + [line];
        }
      }
      assert scanned[..|scanned|] == scanned;
      file := Some(Join(lines, "\n") + "\n");
    }

    /** `mkdirOk` and `saveOk` are what the file system answers. A lost save is only logged. */
    method CreateUserCgroup(uid: Uid, mkdirOk: bool, saveOk: bool) returns (ok: bool)
      modifies this
      ensures View() == Create(old(View()), base, uid, mkdirOk, saveOk)
      ensures ok <==> uid in createdCgroups
    {
      if uid in createdCgroups {
        return true;
      }
      var path := PathOf(base, uid);
      if !mkdirOk {
        return false;
      }
      dirs := dirs + {path};
      createdCgroups := createdCgroups[uid := path];
      if saveOk {
        SaveCgroupToFile(uid, path);
      }
      return true;
    }

    method CleanupUserCgroup(uid: Uid, removable: bool, rewriteOk: bool) returns (ok: bool)
      modifies this
      ensures View() == Cleanup(old(View()), base, uid, removable, rewriteOk)
      ensures ok <==> || (uid !in old(createdCgroups) && PathOf(base, uid) !in old(dirs))
                      || (removable && Lookup(old(createdCgroups), uid, PathOf(base, uid)) in old(dirs))
    {
      var path;
      if uid in createdCgroups {
        path := createdCgroups[uid];
      } else {
        path := PathOf(base, uid);
        if path !in dirs {
          return true;
        }
      }
      if path !in dirs || !removable {
        return false;
      }
      dirs := dirs - {path};
      createdCgroups := createdCgroups - {uid};
      if rewriteOk {
        RemoveCgroupFromFile(uid);
      }
      return true;
    }
  }

  // ------------------------------------------------------------ runs

  datatype Event =
    | CreateUser(uid: Uid, mkdirOk: bool, saveOk: bool)
    | CleanupUser(uid: Uid, removable: bool, rewriteOk: bool)
    | Restart
    | Vanish(gone: set<string>)

  function Step(s: Store, base: string, e: Event): Store {
    match e
    case CreateUser(uid, mkdirOk, saveOk) => Create(s, base, uid, mkdirOk, saveOk)
    case CleanupUser(uid, removable, rewriteOk) => Cleanup(s, base, uid, removable, rewriteOk)
    case Restart => s.(created := Recovered(s))
    case Vanish(gone) => s.(dirs := s.dirs - gone)
  }

  /** A run from the first start, when there is no file, on a machine that may already have directories. */
  function Run(base: string, dirs: set<string>, es: seq<Event>): Store {
    if es == [] then Store(map[], None, dirs)
    else Step(Run(base, dirs, es[..|es| - 1]), base, es[|es| - 1])
  }

  predicate Proper(e: Event) { e.CreateUser? || e.CleanupUser? ==> IsInt(e.uid.id) }

  predicate Saves(e: Event) { e.CreateUser? ==> e.saveOk }

  // ------------------------------------------------------------ what is on file

  /** A line the daemon wrote itself, or the empty line of an emptied file. */
  predicate Own(base: string, line: string) {
    || line == ""
    || (var e := ParseLine(line);
        e.Some? && IsInt(e.value.uid.id) && line == Line(e.value.uid, PathOf(base, e.value.uid)))
  }

  ghost predicate AllOwn(base: string, lines: seq<string>) { forall l | l in lines :: Own(base, l) }

  predicate OnFile(lines: seq<string>, uid: Uid) {
    exists l | l in lines :: ParseLine(l).Some? && ParseLine(l).value.uid == uid
  }

  lemma OwnLine(base: string, uid: Uid)
    requires IsInt(uid.id) && '\n' !in base
    ensures var l := Line(uid, PathOf(base, uid)); l != "" && Own(base, l) && Plain(l)
  {
    var id := Itoa(uid.id);
    ItoaIsPlain(uid.id);
    ParsePrinted(uid, PathOf(base, uid));
    assert Line(uid, PathOf(base, uid)) == (id + ":" + base + "/user_") + id;
  }

  lemma OwnParts(base: string, line: string)
    requires Own(base, line) && line != "" && '\n' !in base
    ensures Plain(line) && ParseLine(line).Some?
    ensures ParseLine(line).value.path == PathOf(base, ParseLine(line).value.uid)
    ensures LineUid(line) == Some(ParseLine(line).value.uid.id)
  {
    var uid := ParseLine(line).value.uid;
    OwnLine(base, uid);
    ParsePrinted(uid, PathOf(base, uid));
  }

  lemma OnFileLast(lines: seq<string>, u: Uid)
    requires lines != []
    ensures var last := ParseLine(lines[|lines| - 1]);
            OnFile(lines, u) <==> OnFile(lines[..|lines| - 1], u) || (last.Some? && last.value.uid == u)
  {
    hide ParseLine;
    var before, last := lines[..|lines| - 1], lines[|lines| - 1];
    assert lines == before + [last];
  }

  lemma OwnPath(base: string, line: string)
    requires Own(base, line) && '\n' !in base && ParseLine(line).Some?
    ensures ParseLine(line).value.path == PathOf(base, ParseLine(line).value.uid)
  {
    OwnParts(base, line);
  }

  lemma {:induction false} LoadedIs(base: string, lines: seq<string>, dirs: set<string>, u: Uid)
    requires AllOwn(base, lines) && '\n' !in base
    ensures u in Loaded(lines, dirs) <==> OnFile(lines, u) && PathOf(base, u) in dirs
    ensures u in Loaded(lines, dirs) ==> Loaded(lines, dirs)[u] == PathOf(base, u)
  {
    if lines != [] {
      hide OnFile, PathOf, Own, ParseLine;
      var before, last := lines[..|lines| - 1], lines[|lines| - 1];
      assert last in lines;
      LoadedIs(base, before, dirs, u);
      OnFileLast(lines, u);
      if ParseLine(last).Some? {
        OwnPath(base, last);
      }
    }
  }

  lemma {:induction false} KeptIs(base: string, lines: seq<string>, uid: Uid, u: Uid)
    requires AllOwn(base, lines) && '\n' !in base
    ensures OnFile(Kept(lines, uid), u) <==> OnFile(lines, u) && u != uid
    ensures AllOwn(base, Kept(lines, uid)) && forall l | l in Kept(lines, uid) :: Plain(l)
  {
    if lines != [] {
      var before, last := lines[..|lines| - 1], lines[|lines| - 1];
      assert last in lines;
      KeptIs(base, before, uid, u);
      assert OnFile(lines, u) <==> OnFile(before, u) || OnFile([last], u);
      assert last in [last];
      if last != "" {
        OwnParts(base, last);
        assert OnFile(Kept(before, uid) + [last], u) <==> OnFile(Kept(before, uid), u) || OnFile([last], u);
      }
    }
  }

  ghost predicate Sound(base: string, file: Option<string>) {
    Terminated(Content(file)) && AllOwn(base, ScanLines(Content(file)))
  }

  lemma AppendRecords(base: string, file: Option<string>, uid: Uid, u: Uid)
    requires Sound(base, file) && IsInt(uid.id) && '\n' !in base
    ensures var after := Appended(file, Line(uid, PathOf(base, uid)));
            && Sound(base, after)
            && (OnFile(ScanLines(Content(after)), u) <==> OnFile(ScanLines(Content(file)), u) || u == uid)
  {
    var line := Line(uid, PathOf(base, uid));
    var lines := ScanLines(Content(file));
    OwnLine(base, uid);
    ParsePrinted(uid, PathOf(base, uid));
    ScanAppend(Content(file), line + "\n");
    ScanOne(line);
    assert Content(file) + line + "\n" == Content(file) + (line + "\n");
    assert line in lines + [line];
    assert OnFile(lines + [line], u) <==> OnFile(lines, u) || u == uid by {
      assert forall l :: l in lines + [line] <==> l in lines || l == line;
    }
  }

  lemma RewriteForgets(base: string, file: Option<string>, uid: Uid, u: Uid)
    requires Sound(base, file) && '\n' !in base
    ensures var after := Rewritten(file, uid);
            && Sound(base, after)
            && (OnFile(ScanLines(Content(after)), u) <==> OnFile(ScanLines(Content(file)), u) && u != uid)
  {
    if file.Some? {
      var lines := ScanLines(file.value);
      KeptIs(base, lines, uid, u);
      ScanJoined(Kept(lines, uid));
    }
  }

  // ------------------------------------------------------------ the invariant

  /** Every entry of the map has the user's own path, and no line on file leads to an unknown directory. */
  ghost predicate Consistent(base: string, s: Store) {
    && Sound(base, s.file)
    && (forall u | u in s.created :: IsInt(u.id) && s.created[u] == PathOf(base, u))
    && (forall u: Uid | OnFile(ScanLines(Content(s.file)), u) && PathOf(base, u) in s.dirs :: u in s.created)
  }

  ghost predicate AllOnFile(s: Store) { forall u | u in s.created :: OnFile(ScanLines(Content(s.file)), u) }

  lemma OnFileInRange(base: string, lines: seq<string>, u: Uid)
    requires AllOwn(base, lines) && OnFile(lines, u)
    ensures IsInt(u.id)
  {
    var l :| l in lines && ParseLine(l).Some? && ParseLine(l).value.uid == u;
    assert Own(base, l);
  }

  lemma CreateKeeps(base: string, s: Store, uid: Uid, mkdirOk: bool, saveOk: bool)
    requires Consistent(base, s) && IsInt(uid.id) && '\n' !in base
    ensures var after := Create(s, base, uid, mkdirOk, saveOk);
            Consistent(base, after) && (AllOnFile(s) && saveOk ==> AllOnFile(after))
  {
    hide Appended, Line;
    var after := Create(s, base, uid, mkdirOk, saveOk);
    if after != s {
      AppendRecords(base, s.file, uid, uid);
      forall u: Uid | OnFile(ScanLines(Content(after.file)), u) && PathOf(base, u) in after.dirs
        ensures u in after.created
      {
        AppendRecords(base, s.file, uid, u);
        OnFileInRange(base, ScanLines(Content(after.file)), u);
        if PathOf(base, u) == PathOf(base, uid) {
          PathsDiffer(base, u, uid);
        }
      }
      if AllOnFile(s) && saveOk {
        forall u | u in after.created ensures OnFile(ScanLines(Content(after.file)), u) {
          AppendRecords(base, s.file, uid, u);
        }
      }
    }
  }

  lemma CleanupKeeps(base: string, s: Store, uid: Uid, removable: bool, rewriteOk: bool)
    requires Consistent(base, s) && IsInt(uid.id) && '\n' !in base
    ensures var after := Cleanup(s, base, uid, removable, rewriteOk);
            Consistent(base, after) && (AllOnFile(s) ==> AllOnFile(after))
  {
    hide Rewritten;
    var after := Cleanup(s, base, uid, removable, rewriteOk);
    if after != s {
      RewriteForgets(base, s.file, uid, uid);
      forall u: Uid | OnFile(ScanLines(Content(after.file)), u) && PathOf(base, u) in after.dirs
        ensures u in after.created
      {
        RewriteForgets(base, s.file, uid, u);
      }
      if AllOnFile(s) {
        forall u | u in after.created ensures OnFile(ScanLines(Content(after.file)), u) {
          RewriteForgets(base, s.file, uid, u);
        }
      }
    }
  }

  lemma RestartKeeps(base: string, s: Store)
    requires Consistent(base, s) && '\n' !in base
    ensures var after := s.(created := Recovered(s)); Consistent(base, after) && AllOnFile(after)
  {
    var after := s.(created := Recovered(s));
    var lines := ScanLines(Content(s.file));
    forall u: Uid | OnFile(lines, u) && PathOf(base, u) in s.dirs ensures u in after.created {
      LoadedIs(base, lines, s.dirs, u);
    }
    forall u | u in after.created ensures IsInt(u.id) && after.created[u] == PathOf(base, u) && OnFile(lines, u) {
      LoadedIs(base, lines, s.dirs, u);
      OnFileInRange(base, lines, u);
    }
  }

  lemma {:induction false} RunIsConsistent(base: string, dirs: set<string>, es: seq<Event>)
    requires '\n' !in base && forall e | e in es :: Proper(e)
    ensures Consistent(base, Run(base, dirs, es))
    ensures (forall e | e in es :: Saves(e)) ==> AllOnFile(Run(base, dirs, es))
  {
    if es != [] {
      var before, e := es[..|es| - 1], es[|es| - 1];
      assert e in es && forall x | x in before :: x in es;
      RunIsConsistent(base, dirs, before);
      var s := Run(base, dirs, before);
      hide Create, Cleanup, Recovered, Consistent, AllOnFile;
      match e
      case CreateUser(uid, mkdirOk, saveOk) => CreateKeeps(base, s, uid, mkdirOk, saveOk);
      case CleanupUser(uid, removable, rewriteOk) => CleanupKeeps(base, s, uid, removable, rewriteOk);
      case Restart => RestartKeeps(base, s);
      case Vanish(gone) => VanishKeeps(base, s, gone);
    }
  }

  lemma VanishKeeps(base: string, s: Store, gone: set<string>)
    requires Consistent(base, s)
    ensures var after := s.(dirs := s.dirs - gone); Consistent(base, after) && (AllOnFile(s) ==> AllOnFile(after))
  {
  }

  // ------------------------------------------------------------ recovery

  /** However creations, cleanups and restarts fail, the file names nothing but the daemon's live cgroups. */
  lemma RecoversNothingElse(base: string, dirs: set<string>, es: seq<Event>, u: Uid)
    requires '\n' !in base && forall e | e in es :: Proper(e)
    ensures var s := Run(base, dirs, es);
            && Terminated(Content(s.file))
            && (u in Recovered(s) ==> u in s.created && Recovered(s)[u] == s.created[u] && s.created[u] in s.dirs)
  {
    RunIsConsistent(base, dirs, es);
    var s := Run(base, dirs, es);
    LoadedIs(base, ScanLines(Content(s.file)), s.dirs, u);
  }

  /**
    If directories appear from outside, a restart recovers a user that the daemon does not know
    exactly if the user's own directory is among them and a line of the user was left behind.
  */
  lemma UnknownIff(base: string, dirs: set<string>, es: seq<Event>, more: set<string>, u: Uid)
    requires '\n' !in base && forall e | e in es :: Proper(e)
    requires u !in Run(base, dirs, es).created
    ensures var s := Run(base, dirs, es);
            u in Recovered(s.(dirs := s.dirs + more))
            <==> PathOf(base, u) in more && OnFile(ScanLines(Content(s.file)), u)
  {
    RunIsConsistent(base, dirs, es);
    var s := Run(base, dirs, es);
    LoadedIs(base, ScanLines(Content(s.file)), s.dirs + more, u);
  }

  /** A rewrite that failed leaves such a line. */
  lemma StaleLine(base: string, uid: Uid)
    requires '\n' !in base && IsInt(uid.id)
    ensures var s := Run(base, {}, [CreateUser(uid, true, true), CleanupUser(uid, true, false)]);
            uid in Recovered(s.(dirs := s.dirs + {PathOf(base, uid)})) && uid !in s.created
  {
    var created := [CreateUser(uid, true, true)];
    var es := [CreateUser(uid, true, true), CleanupUser(uid, true, false)];
    assert es[..1] == created && created[..0] == [];
    var empty := Run(base, {}, []);
    assert Run(base, {}, created) == Create(empty, base, uid, true, true);
    AppendRecords(base, None, uid, uid);
    hide Appended, Line, PathOf;
    UnknownIff(base, {}, es, {PathOf(base, uid)}, uid);
  }

  /** If no save was lost, a restart at any moment finds exactly the live cgroups; failed rewrites do no harm. */
  lemma RestartRecovers(base: string, dirs: set<string>, es: seq<Event>)
    requires '\n' !in base && forall e | e in es :: Proper(e) && Saves(e)
    ensures var s := Run(base, dirs, es);
            Recovered(s) == map u | u in s.created && s.created[u] in s.dirs :: s.created[u]
  {
    RunIsConsistent(base, dirs, es);
    var s := Run(base, dirs, es);
    forall u: Uid
      ensures u in Recovered(s) <==> u in s.created && s.created[u] in s.dirs
      ensures u in Recovered(s) ==> u in s.created && Recovered(s)[u] == s.created[u]
    {
      LoadedIs(base, ScanLines(Content(s.file)), s.dirs, u);
    }
  }

  /** Without directories that vanish behind its back, these are all the cgroups the daemon knows. */
  lemma {:induction false} TrackedExist(base: string, dirs: set<string>, es: seq<Event>)
    requires '\n' !in base && forall e | e in es :: Proper(e) && !e.Vanish?
    ensures var s := Run(base, dirs, es); forall u | u in s.created :: s.created[u] in s.dirs
  {
    if es != [] {
      var before, e := es[..|es| - 1], es[|es| - 1];
      assert e in es && forall x | x in before :: x in es;
      TrackedExist(base, dirs, before);
      RunIsConsistent(base, dirs, before);
      var s := Run(base, dirs, before);
      if e.Restart? {
        RecoveredExist(base, s);
      } else if e.CleanupUser? {
        CleanupLeavesOthers(base, s, e.uid, e.removable, e.rewriteOk);
      }
    }
  }

  lemma RecoveredExist(base: string, s: Store)
    requires Sound(base, s.file) && '\n' !in base
    ensures forall u | u in Recovered(s) :: Recovered(s)[u] in s.dirs
  {
    forall u | u in Recovered(s) ensures Recovered(s)[u] in s.dirs {
      LoadedIs(base, ScanLines(Content(s.file)), s.dirs, u);
    }
  }

  lemma CleanupLeavesOthers(base: string, s: Store, uid: Uid, removable: bool, rewriteOk: bool)
    requires Consistent(base, s) && IsInt(uid.id) && forall u | u in s.created :: s.created[u] in s.dirs
    ensures var after := Cleanup(s, base, uid, removable, rewriteOk);
            forall u | u in after.created :: after.created[u] in after.dirs
  {
    hide Rewritten;
    var after := Cleanup(s, base, uid, removable, rewriteOk);
    forall u | u in after.created ensures after.created[u] in after.dirs {
      if after != s && PathOf(base, u) == PathOf(base, uid) {
        PathsDiffer(base, u, uid);
      }
    }
  }

  lemma RestartRecoversAll(base: string, dirs: set<string>, es: seq<Event>)
    requires '\n' !in base && forall e | e in es :: Proper(e) && Saves(e) && !e.Vanish?
    ensures Recovered(Run(base, dirs, es)) == Run(base, dirs, es).created
  {
    RestartRecovers(base, dirs, es);
    TrackedExist(base, dirs, es);
  }

  /** A lost save costs the user its recovery, unless a line is left from a rewrite that failed before. */
  lemma LostSaveIff(base: string, dirs: set<string>, es: seq<Event>, uid: Uid, saveOk: bool)
    requires '\n' !in base && IsInt(uid.id) && forall e | e in es :: Proper(e)
    requires uid !in Run(base, dirs, es).created
    ensures var s := Run(base, dirs, es);
            uid in Recovered(Create(s, base, uid, true, saveOk)) <==> saveOk || OnFile(ScanLines(Content(s.file)), uid)
  {
    RunIsConsistent(base, dirs, es);
    var s := Run(base, dirs, es);
    var after := Create(s, base, uid, true, saveOk);
    AppendRecords(base, s.file, uid, uid);
    LoadedIs(base, ScanLines(Content(after.file)), after.dirs, uid);
  }

  /** One lost save is enough: the daemon knows the cgroup, and after a restart it does not. */
  lemma {:induction false} LostSave(base: string, uid: Uid)
    requires '\n' !in base && IsInt(uid.id)
    ensures var s := Run(base, {}, [CreateUser(uid, true, false)]); uid in s.created && uid !in Recovered(s)
  {
    var es := [CreateUser(uid, true, false)];
    assert es[..0] == [];
    LostSaveIff(base, {}, [], uid, false);
    assert Run(base, {}, es) == Create(Run(base, {}, []), base, uid, true, false);
  }

  // ------------------------------------------------------------ what each call does

  /** A rewrite drops the user's lines and the empty ones, and keeps all others as often and in the order they came. */
  lemma {:induction false} RewriteKeeps(lines: seq<string>, uid: Uid, line: string)
    ensures multiset(Kept(lines, uid))[line]
         == if line == "" || Atoi(SplitOnce(line, ':').0) == Some(uid.id) then 0 else multiset(lines)[line]
    ensures forall more :: Kept(lines + more, uid) == Kept(lines, uid) + Kept(more, uid)
  {
    hide SplitOnce, Atoi;
    if lines != [] {
      RewriteKeeps(lines[..|lines| - 1], uid, line);
      assert lines == lines[..|lines| - 1] + [lines[|lines| - 1]];
    }
    forall more ensures Kept(lines + more, uid) == Kept(lines, uid) + Kept(more, uid) {
      KeptTogether(lines, more, uid);
    }
  }

  lemma {:induction false} KeptTogether(lines: seq<string>, more: seq<string>, uid: Uid)
    ensures Kept(lines + more, uid) == Kept(lines, uid) + Kept(more, uid)
    decreases |more|
  {
    hide LineUid;
    if more == [] {
      assert lines + more == lines;
    } else {
      assert (lines + more)[..|lines + more| - 1] == lines + more[..|more| - 1];
      KeptTogether(lines, more[..|more| - 1], uid);
    }
  }

  /** The line is an entry of the user, and its directory exists. */
  predicate Leads(line: string, dirs: set<string>, u: Uid) {
    ParseLine(line).Some? && ParseLine(line).value.uid == u && ParseLine(line).value.path in dirs
  }

  /** Whatever is on file, a user is recovered exactly from the last of its lines that leads to a directory. */
  lemma {:induction false} LoadsLast(lines: seq<string>, dirs: set<string>, u: Uid)
    ensures u in Loaded(lines, dirs) <==> exists l | l in lines :: Leads(l, dirs, u)
    ensures forall i | 0 <= i < |lines| && Leads(lines[i], dirs, u) && (forall j | i < j < |lines| :: !Leads(lines[j], dirs, u)) ::
              u in Loaded(lines, dirs) && Loaded(lines, dirs)[u] == ParseLine(lines[i]).value.path
  {
    hide ParseLine;
    if lines != [] {
      var before, last := lines[..|lines| - 1], lines[|lines| - 1];
      assert lines == before + [last];
      LoadsLast(before, dirs, u);
      if !Leads(last, dirs, u) {
        forall i | 0 <= i < |lines| && Leads(lines[i], dirs, u) && (forall j | i < j < |lines| :: !Leads(lines[j], dirs, u))
          ensures u in Loaded(lines, dirs) && Loaded(lines, dirs)[u] == ParseLine(lines[i]).value.path
        {
          assert i < |before| && before[i] == lines[i];
        }
      }
    }
  }

  /** A creation happens for a user that is not known, if the directory can be made. */
  predicate Created(s: Store, e: Event) { e.CreateUser? && e.uid !in s.created && e.mkdirOk }

  /** A cleanup happens if there is a directory, at the known path or the default one, and it can be removed. */
  predicate Removed(s: Store, base: string, e: Event) {
    e.CleanupUser? && e.removable && (if e.uid in s.created then s.created[e.uid] else PathOf(base, e.uid)) in s.dirs
  }

  /** What a creation and a cleanup change, and that nothing else changes with them. */
  lemma CallIs(s: Store, base: string, e: Event, u: Uid)
    requires e.CreateUser? || e.CleanupUser?
    ensures var after := Step(s, base, e);
            var mine := e.uid == u;
            var path := if u in s.created then s.created[u] else base + "/user_" + Itoa(u.id);
            && (u in after.created <==> (u in s.created && !(mine && Removed(s, base, e))) || (mine && Created(s, e)))
            && (u in after.created ==> after.created[u] == path)
            && (mine ==> after.dirs == if Created(s, e) then s.dirs + {path}
                                       else if Removed(s, base, e) then s.dirs - {path} else s.dirs)
            && (after.file != s.file ==> (Created(s, e) && e.saveOk) || (Removed(s, base, e) && e.rewriteOk))
  {
    hide Appended, Rewritten;
  }

  /** A user has a line exactly from a creation that saves to a cleanup that rewrites. */
  ghost function HasLine(base: string, dirs: set<string>, es: seq<Event>, u: Uid): bool {
    if es == [] then false
    else
      var s, e := Run(base, dirs, es[..|es| - 1]), es[|es| - 1];
      if Created(s, e) && e.saveOk && e.uid == u then true
      else if Removed(s, base, e) && e.rewriteOk && e.uid == u then false
      else HasLine(base, dirs, es[..|es| - 1], u)
  }

  /** In every run these are exactly the users on file. */
  lemma {:induction false} LinesAre(base: string, dirs: set<string>, es: seq<Event>, u: Uid)
    requires '\n' !in base && forall e | e in es :: Proper(e)
    ensures OnFile(ScanLines(Content(Run(base, dirs, es).file)), u) <==> HasLine(base, dirs, es, u)
  {
    if es != [] {
      var before, e := es[..|es| - 1], es[|es| - 1];
      assert e in es && forall x | x in before :: x in es;
      LinesAre(base, dirs, before, u);
      RunIsConsistent(base, dirs, before);
      var s := Run(base, dirs, before);
      hide OnFile, ScanLines, Appended, Rewritten, Recovered, Own, Line;
      if e.CreateUser? {
        AppendRecords(base, s.file, e.uid, u);
      } else if e.CleanupUser? {
        RewriteForgets(base, s.file, e.uid, u);
      }
    } else {
      NoLines(u);
    }
  }

  lemma NoLines(u: Uid)
    ensures !OnFile(ScanLines(""), u)
  {
  }

  /** A cleanup undoes a creation: what the daemon knew and the directories are as before. */
  lemma CleanupUndoes(base: string, s: Store, uid: Uid, saveOk: bool, rewriteOk: bool)
    requires uid !in s.created && PathOf(base, uid) !in s.dirs
    ensures var after := Cleanup(Create(s, base, uid, true, saveOk), base, uid, true, rewriteOk);
            after.created == s.created && after.dirs == s.dirs
  {
    hide Appended, Rewritten, PathOf;
  }

  // ------------------------------------------------------------ pid lists

  datatype Pid = Pid(n: int)

  function Printed(pids: seq<Pid>): seq<string> {
    seq(|pids|, i requires 0 <= i < |pids| => Itoa(pids[i].n))
  }

  function PidsOf(lines: seq<string>): seq<Pid> {
    if lines == [] then []
    else
      var last := TrimSpace(lines[|lines| - 1]);
      PidsOf(lines[..|lines| - 1]) + if last == "" || Atoi(last).None? then [] else [Pid(Atoi(last).value)]
  }

  method ReadPids(data: string) returns (pids: seq<Pid>)
    ensures pids == PidsOf(ScanLines(data))
  {
    var lines := ScanLines(data);
    pids := [];
    for k := 0 to |lines|
      invariant pids == PidsOf(lines[..k])
    {
      assert lines[..k + 1][..k] == lines[..k];
      var pidStr := TrimSpace(lines[k]);
      if pidStr == "" {
        continue;
      }
      var pid := Atoi(pidStr);
      if pid.None? {
        continue;
      }
      pids := pids + [Pid(pid.value)];
    }
    assert lines[..|lines|] == lines;
  }

  /** The data handed to the file; nothing is written for an empty list. */
  method WritePids(pids: seq<Pid>) returns (data: Option<string>)
    ensures data == if pids == [] then None else Some(Join(Printed(pids), "\n"))
  {
    if |pids| == 0 {
      return None;
    }
    var sb := "";
    hide Printed, Join, Itoa;
    assert pids[0..] == pids;
    for k := 0 to |pids|
      invariant k < |pids| ==> sb + Join(Printed(pids[k..]), "\n") == Join(Printed(pids), "\n")
      invariant k == |pids| ==> sb == Join(Printed(pids), "\n")
    {
      JoinNext(pids, k);
      sb := sb + Itoa(pids[k].n);
      if k < |pids| - 1 {
        sb := sb + "\n";
      }
    }
    return Some(sb);
  }

  lemma JoinNext(pids: seq<Pid>, k: nat)
    requires k < |pids|
    ensures Join(Printed(pids[k..]), "\n")
         == Itoa(pids[k].n) + if k == |pids| - 1 then "" else "\n" + Join(Printed(pids[k + 1..]), "\n")
  {
    hide Itoa;
    assert Printed(pids[k..])[1..] == Printed(pids[k + 1..]);
  }

  lemma {:induction false} PidsOfPrinted(pids: seq<Pid>)
    requires forall p | p in pids :: IsInt(p.n)
    ensures PidsOf(Printed(pids)) == pids
  {
    hide Itoa, Atoi, TrimSpace, Plain;
    if pids != [] {
      var n := |pids| - 1;
      assert pids[n] in pids;
      PidsOfPrinted(pids[..n]);
      assert Printed(pids)[..n] == Printed(pids[..n]);
      ItoaIsPlain(pids[n].n);
      AtoiItoa(pids[n].n);
    }
  }

  /** A written list is read back as it was. */
  lemma PidsRoundTrip(pids: seq<Pid>)
    requires forall p | p in pids :: IsInt(p.n)
    ensures PidsOf(ScanLines(Join(Printed(pids), "\n"))) == pids
  {
    forall l | l in Printed(pids) ensures Plain(l) && l != "" {
      var i :| 0 <= i < |pids| && l == Itoa(pids[i].n);
      ItoaIsPlain(pids[i].n);
    }
    ScanJoinedOpen(Printed(pids));
    PidsOfPrinted(pids);
  }
}
