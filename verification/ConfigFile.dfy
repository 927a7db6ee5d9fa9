/**
  The configuration file: loading its `KEY=value` lines, and writing the two user lists
  back into it without touching anything else.
*/
module ConfigFile {
  import opened Common
  import opened Text

  // ------------------------------------------------------------ keys and values

  datatype Field = Include | Exclude

  const LEGACY := "USER_WHITELIST"

  function Key(f: Field): string { if f.Include? then "USER_INCLUDE_LIST" else "USER_EXCLUDE_LIST" }

  /** The loaded configuration. Everything but the two user lists is left abstract. */
  datatype Values<O> = Values(includes: seq<string>, excludes: seq<string>, other: O)

  /** `regexp.Compile`, and the handlers of all keys that do not concern the user lists. */
  datatype Handlers<!O> = Handlers(valid: string -> bool, handle: (O, string, string) -> Option<O>)

  /** The trimmed entries that are not empty. */
  function Items(parts: seq<string>): seq<string> {
    if parts == [] then []
    else
      var last := TrimSpace(parts[|parts| - 1]);
      Items(parts[..|parts| - 1]) + if last == "" then [] else [last]
  }

  function ListOf(value: string): seq<string> { Items(Split(TrimSpace(value), ',')) }

  predicate AllValid<O>(h: Handlers<O>, ps: seq<string>) { forall p | p in ps :: h.valid(p) }

  function ParseList<O>(h: Handlers<O>, value: string): Option<seq<string>> {
    if AllValid(h, ListOf(value)) then Some(ListOf(value)) else None
  }

  /** The value of a line: no comment, no outer quotes, no outer blanks. */
  function Cleaned(raw: string): string {
    var v := TrimSpace(raw);
    TrimSpace(Trim(v[..Find(v, '#')], IsQuote))
  }

  datatype Meaning = Blank | NoValue | Setting(key: string, value: string)

  function Read(line: string): Meaning {
    var trimmed := TrimSpace(line);
    if trimmed == "" || trimmed[0] == '#' then Blank
    else
      var (head, tail) := SplitOnce(trimmed, '=');
      if tail.None? then NoValue else Setting(TrimSpace(head), Cleaned(tail.value))
  }

  // ------------------------------------------------------------ loading

  function Apply<O>(h: Handlers<O>, c: Values<O>, key: string, value: string): Option<Values<O>> {
    if key == Key(Include) then
      if ParseList(h, value).None? then None else Some(c.(includes := ListOf(value)))
    else if key == Key(Exclude) then
      if ParseList(h, value).None? then None else Some(c.(excludes := ListOf(value)))
    else if key == LEGACY then Some(c.(excludes := ListOf(value)))
    else
      match h.handle(c.other, key, value)
      case None => None
      case Some(o) => Some(c.(other := o))
  }

  datatype Problem = Malformed(line: nat) | Rejected(line: nat) | Unreadable

  /** The configuration so far, and the line at which loading stopped. */
  datatype Loaded<O> = Loaded(config: Values<O>, problem: Option<Problem>)

  function LoadLine<O>(h: Handlers<O>, c: Values<O>, line: string, number: nat): Loaded<O> {
    match Read(line)
    case Blank => Loaded(c, None)
    case NoValue => Loaded(c, Some(Malformed(number)))
    case Setting(key, value) =>
      match Apply(h, c, key, value)
      case None => Loaded(c, Some(Rejected(number)))
      case Some(d) => Loaded(d, None)
  }

  function Load<O>(h: Handlers<O>, start: Values<O>, lines: seq<string>): Loaded<O> {
    if lines == [] then Loaded(start, None)
    else
      var before := Load(h, start, lines[..|lines| - 1]);
      if before.problem.Some? then before else LoadLine(h, before.config, lines[|lines| - 1], |lines|)
  }

  // ------------------------------------------------------------ editing

  predicate Owns(f: Field, line: string) {
    var trimmed := TrimSpace(line);
    trimmed != "" && trimmed[0] != '#' && Key(f) + "=" <= trimmed
  }

  function Written(f: Field, ps: seq<string>): string { Key(f) + "=" + Join(ps, ",") }

  function Rewrite(inc: seq<string>, exc: seq<string>, line: string): string {
    if Owns(Include, line) then Written(Include, inc)
    else if Owns(Exclude, line) then Written(Exclude, exc)
    else line
  }

  function Rewritten(inc: seq<string>, exc: seq<string>, lines: seq<string>): seq<string> {
    seq(|lines|, i requires 0 <= i < |lines| => Rewrite(inc, exc, lines[i]))
  }

  predicate Owned(f: Field, lines: seq<string>) { exists l | l in lines :: Owns(f, l) }

  function Missing(f: Field, ps: seq<string>, lines: seq<string>): seq<string> {
    if Owned(f, lines) then [] else [Written(f, ps)]
  }

  function Updated(inc: seq<string>, exc: seq<string>, lines: seq<string>): seq<string> {
    Rewritten(inc, exc, lines) + Missing(Include, inc, lines) + Missing(Exclude, exc, lines)
  }

  function Generated(inc: seq<string>, exc: seq<string>): seq<string> {
    ["# CPU Manager Configuration", Written(Include, inc), Written(Exclude, exc), ""]
  }

  /** The lines that `updateConfigLines` returns for a file, or for no file. */
  function NewLines(inc: seq<string>, exc: seq<string>, file: Option<string>): seq<string> {
    if file.None? then Generated(inc, exc) else Updated(inc, exc, Split(file.value, '\n'))
  }

  function Saved(inc: seq<string>, exc: seq<string>, file: Option<string>): string {
    Join(NewLines(inc, exc, file), "\n")
  }

  /** The configuration object, and the file it is loaded from and saved to. */
  class Config<O(0)> {
    const handlers: Handlers<O>
    var userIncludeList: seq<string>
    var userExcludeList: seq<string>
    var other: O
    var file: Option<string>

    function View(): Values<O>
      reads this
    {
      Values(userIncludeList, userExcludeList, other)
    }

    /** `DefaultConfig`: no user lists. */
    constructor (handlers: Handlers<O>, other: O, file: Option<string>)
      ensures this.handlers == handlers && this.file == file && View() == Values([], [], other)
    {
      this.handlers, this.other, this.file := handlers, other, file;
      userIncludeList, userExcludeList := [], [];
    }

    method ParseRegexList(text: string) returns (r: Option<seq<string>>)
      ensures r == ParseList(handlers, text)
    {
      var value := TrimSpace(text);
      var raw := Split(value, ',');
      var patterns := [];
      for k := 0 to |raw|
        invariant patterns == Items(raw[..k])
        invariant AllValid(handlers, patterns)
      {
        assert raw[..k + 1][..k] == raw[..k];
        var pattern := TrimSpace(raw[k]);
        if pattern == "" {
          continue;
        }
        if !handlers.valid(pattern) {
          assert pattern in Items(raw[..k + 1]);
          ItemsGrow(raw, k + 1, pattern);
          return None;
        }
        patterns := patterns + [pattern];
      }
      assert raw[..|raw|] == raw;
      return Some(patterns);
    }

    method SetConfigField(key: string, value: string) returns (ok: bool)
      modifies this`userIncludeList, this`userExcludeList, this`other
      ensures var r := Apply(handlers, old(View()), key, value);
              ok == r.Some? && View() == if ok then r.value else old(View())
    {
      if key == Key(Include) || key == Key(Exclude) {
        var patterns := ParseRegexList(value);
        if patterns.None? {
          return false;
        }
        if key == Key(Include) {
          userIncludeList := patterns.value;
        } else {
          userExcludeList := patterns.value;
        }
      } else if key == LEGACY {
        userExcludeList := ListOf(value);
      } else {
        var r := handlers.handle(other, key, value);
        if r.None? {
          return false;
        }
        other := r.value;
      }
      return true;
    }

    static method ReadLine(text: string) returns (m: Meaning)
      ensures m == Read(text)
    {
      hide TrimSpace, Trim, SplitOnce;
      var line := TrimSpace(text);
      if line == "" || line[0] == '#' {
        return Blank;
      }
      var parts := SplitOnce(line, '=');
      if parts.1.None? {
        return NoValue;
      }
      var key := TrimSpace(parts.0);
      var value := TrimSpace(parts.1.value);
      value := value[..Find(value, '#')];
      value := TrimSpace(Trim(value, IsQuote));
      return Setting(key, value);
    }

    /** `readable` is false if the file exists and reading it fails. */
    method LoadFromFile(readable: bool) returns (problem: Option<Problem>)
      modifies this`userIncludeList, this`userExcludeList, this`other
      ensures Loaded(View(), problem)
           == if file.None? then Loaded(old(View()), None)
              else if !readable then Loaded(old(View()), Some(Unreadable))
              else Load(handlers, old(View()), Split(file.value, '\n'))
    {
      hide Read, Apply, Split;
      if file.None? {
        return None;
      }
      if !readable {
        return Some(Unreadable);
      }
      var lines := Split(file.value, '\n');
      ghost var start := View();
      for k := 0 to |lines|
        invariant Load(handlers, start, lines[..k]) == Loaded(View(), None)
      {
        assert lines[..k + 1][..k] == lines[..k];
        ghost var before := View();
        var m := ReadLine(lines[k]);
        if m.Setting? {
          var ok := SetConfigField(m.key, m.value);
          if !ok {
            LoadStops(handlers, start, lines, k + 1);
            return Some(Rejected(k + 1));
          }
        } else if m.NoValue? {
          LoadStops(handlers, start, lines, k + 1);
          return Some(Malformed(k + 1));
        }
      }
      assert lines[..|lines|] == lines;
      return None;
    }

    /** The list a line is replaced by, if any. */
    static method Owner(line: string) returns (f: Option<Field>)
      ensures f == Some(Include) <==> Owns(Include, line)
      ensures f == Some(Exclude) <==> Owns(Exclude, line)
    {
      hide TrimSpace, Key;
      OneOwner(line);
      var trimmed := TrimSpace(line);
      if trimmed == "" || trimmed[0] == '#' {
        return None;
      }
      if Key(Include) + "=" <= trimmed {
        return Some(Include);
      }
      if Key(Exclude) + "=" <= trimmed {
        return Some(Exclude);
      }
      return None;
    }

    method UpdateConfigLines() returns (updated: seq<string>)
      ensures updated == NewLines(userIncludeList, userExcludeList, file)
    {
      hide Owns, Written, Split;
      var inc, exc := userIncludeList, userExcludeList;
      if file.None? {
        return Generated(inc, exc);
      }
      var lines := Split(file.value, '\n');
      updated := [];
      var includeListWritten, excludeListWritten := false, false;
      for k := 0 to |lines|
        invariant updated == Rewritten(inc, exc, lines[..k])
        invariant includeListWritten == Owned(Include, lines[..k])
        invariant excludeListWritten == Owned(Exclude, lines[..k])
      {
        OwnedLast(Include, lines, k);
        OwnedLast(Exclude, lines, k);
        var owner := Owner(lines[k]);
        if owner == Some(Include) {
          updated := updated + [Written(Include, inc)];
          includeListWritten := true;
        } else if owner == Some(Exclude) {
          updated := updated + [Written(Exclude, exc)];
          excludeListWritten := true;
        } else {
          updated := updated + [lines[k]];
        }
      }
      assert lines[..|lines|] == lines;
      if !includeListWritten {
        updated := updated + [Written(Include, inc)];
      }
      if !excludeListWritten {
        updated := updated + [Written(Exclude, exc)];
      }
    }

    /** `SetUserIncludeList` and `SetUserExcludeList`; `written` says whether backup, write and rename all worked. */
    method SetUserList(f: Field, patterns: seq<string>, written: bool) returns (previous: Option<seq<string>>)
      modifies this`userIncludeList, this`userExcludeList, this`file
      ensures previous.Some? <==> AllValid(handlers, patterns) && written
      ensures previous.None? ==> View() == old(View()) && file == old(file)
      ensures previous.Some? ==>
                && previous.value == (if f.Include? then old(userIncludeList) else old(userExcludeList))
                && View() == (if f.Include? then old(View()).(includes := patterns) else old(View()).(excludes := patterns))
                && file == Some(Saved(userIncludeList, userExcludeList, old(file)))
    {
      for k := 0 to |patterns|
        invariant AllValid(handlers, patterns[..k])
      {
        if !handlers.valid(patterns[k]) {
          return None;
        }
        assert patterns[..k + 1] == patterns[..k] + [patterns[k]];
      }
      assert patterns[..|patterns|] == patterns;
      var was := if f.Include? then userIncludeList else userExcludeList;
      if f.Include? { userIncludeList := patterns; } else { userExcludeList := patterns; }
      var lines := UpdateConfigLines();
      if !written {
        if f.Include? { userIncludeList := was; } else { userExcludeList := was; }
        return None;
      }
      file := Some(Join(lines, "\n"));
      return Some(was);
    }
  }

  lemma {:induction false} ItemsGrow(parts: seq<string>, k: nat, item: string)
    requires k <= |parts| && item in Items(parts[..k])
    ensures item in Items(parts)
  {
    if k == |parts| {
      assert parts[..k] == parts;
    } else {
      assert parts[..|parts| - 1][..k] == parts[..k];
      ItemsGrow(parts[..|parts| - 1], k, item);
    }
  }

  lemma {:induction false} LoadStops<O>(h: Handlers<O>, start: Values<O>, lines: seq<string>, k: nat)
    requires k <= |lines| && Load(h, start, lines[..k]).problem.Some?
    ensures Load(h, start, lines) == Load(h, start, lines[..k])
  {
    if k == |lines| {
      assert lines[..k] == lines;
    } else {
      assert lines[..|lines| - 1][..k] == lines[..k];
      LoadStops(h, start, lines[..|lines| - 1], k);
    }
  }

  // ------------------------------------------------------------ one line

  lemma KeysDiffer()
    ensures Key(Include) != Key(Exclude) && Key(Include) != LEGACY && Key(Exclude) != LEGACY
    ensures forall f, g: Field :: |Key(f)| == |Key(g)|
  {
    assert Key(Include)[5] != Key(Exclude)[5];
    assert |LEGACY| != |Key(Include)| && |LEGACY| != |Key(Exclude)|;
  }

  lemma KeyIsPlain(f: Field)
    ensures '=' !in Key(f) && '\n' !in Key(f) && Key(f) != "" && Key(f)[0] != '#' && Trimmed(Key(f), IsSpace)
  {
  }

  lemma PrefixesDiffer(t: string)
    ensures !(Key(Include) + "=" <= t && Key(Exclude) + "=" <= t)
  {
    if Key(Include) + "=" <= t {
      assert t[5] == (Key(Include) + "=")[5] == 'I';
      assert (Key(Exclude) + "=")[5] == 'E';
    }
  }

  lemma OneOwner(line: string)
    ensures !(Owns(Include, line) && Owns(Exclude, line))
  {
    hide TrimSpace, Key;
    PrefixesDiffer(TrimSpace(line));
  }

  lemma OwnedLast(f: Field, lines: seq<string>, k: nat)
    requires k < |lines|
    ensures Owned(f, lines[..k + 1]) <==> Owned(f, lines[..k]) || Owns(f, lines[k])
  {
    hide Owns;
    assert lines[..k + 1] == lines[..k] + [lines[k]];
  }
}
