/** What a configuration file means to the loader: which lines it accepts, and what they leave. */
module ConfigReading {
  import opened Common
  import opened Text
  import opened ConfigFile
  import opened ConfigLaws

  // ------------------------------------------------------------ whole files

  predicate IsListKey(key: string) { key == "USER_INCLUDE_LIST" || key == "USER_EXCLUDE_LIST" }

  /** Nothing to set, a list of valid patterns, the unchecked legacy list, or a value its handler takes. */
  predicate Fine<O>(h: Handlers<O>, o: O, line: string) {
    match Read(line)
    case Blank => true
    case NoValue => false
    case Setting(key, value) =>
      if IsListKey(key) then forall p | p in ListOf(value) :: h.valid(p)
      else key == "USER_WHITELIST" || h.handle(o, key, value).Some?
  }

  /** The other settings after the handlers of those lines. */
  function OtherAfter<O>(h: Handlers<O>, o: O, lines: seq<string>): O {
    if lines == [] then o
    else
      var before := OtherAfter(h, o, lines[..|lines| - 1]);
      match Read(lines[|lines| - 1])
      case Setting(key, value) =>
        if IsListKey(key) || key == "USER_WHITELIST" || h.handle(before, key, value).None? then before
        else h.handle(before, key, value).value
      case _ => before
  }

  /** The list after those lines: the last one that sets it decides. */
  function ListAfter(f: Field, lines: seq<string>, start: seq<string>): seq<string> {
    match LastSetter(f, lines)
    case None => start
    case Some(i) => if Read(lines[i]).Setting? then ListOf(Read(lines[i]).value) else start
  }

  /** How many lines take effect. */
  function Taken<O>(r: Loaded<O>, lines: seq<string>): int {
    match r.problem
    case Some(Malformed(n)) => n - 1
    case Some(Rejected(n)) => n - 1
    case _ => |lines|
  }

  lemma LineIs<O>(h: Handlers<O>, c: Values<O>, line: string, number: nat)
    ensures var r := LoadLine(h, c, line, number);
            && (r.problem.None? <==> Fine(h, c.other, line))
            && (r.problem.Some? ==>
                  && r.config == c
                  && r.problem.value == if Read(line).NoValue? then Malformed(number) else Rejected(number))
            && (r.problem.None? ==>
                  && r.config.includes == (if Sets(Include, line) then ListOf(Read(line).value) else c.includes)
                  && r.config.excludes == (if Sets(Exclude, line) then ListOf(Read(line).value) else c.excludes)
                  && r.config.other == OtherAfter(h, c.other, [line]))
  {
    KeysDiffer();
    KeysAre();
    assert [line][..0] == [];
    hide Read, ListOf, Key;
  }

  lemma KeysAre()
    ensures Key(Include) == "USER_INCLUDE_LIST" && Key(Exclude) == "USER_EXCLUDE_LIST" && LEGACY == "USER_WHITELIST"
  {
  }

  lemma OtherNext<O>(h: Handlers<O>, o: O, lines: seq<string>, line: string)
    ensures OtherAfter(h, o, lines + [line]) == OtherAfter(h, OtherAfter(h, o, lines), [line])
  {
    assert (lines + [line])[..|lines|] == lines && [line][..0] == [];
    hide Read;
  }

  lemma ListNext(f: Field, lines: seq<string>, line: string, start: seq<string>)
    ensures ListAfter(f, lines + [line], start)
         == if Sets(f, line) then ListOf(Read(line).value) else ListAfter(f, lines, start)
  {
    assert (lines + [line])[..|lines|] == lines;
    hide Sets, Read, ListOf;
  }

  /** Line `i` is one that the loader accepts after those before it. */
  predicate FineAt<O>(h: Handlers<O>, o: O, lines: seq<string>, i: nat)
    requires i < |lines|
  {
    Fine(h, OtherAfter(h, o, lines[..i]), lines[i])
  }

  /** The lines before the first one that is not accepted have taken effect, and that one is named. */
  ghost predicate LoadedAs<O>(h: Handlers<O>, start: Values<O>, lines: seq<string>, r: Loaded<O>, n: int) {
    && 0 <= n <= |lines| && (n < |lines| <==> r.problem.Some?)
    && (forall i: nat | i < n :: FineAt(h, start.other, lines, i))
    && (n < |lines| ==>
          && !FineAt(h, start.other, lines, n)
          && r.problem == Some(if Read(lines[n]).NoValue? then Malformed(n + 1) else Rejected(n + 1)))
    && r.config == AfterLines(h, start, lines[..n])
  }

  /** The last setters decide the lists, and the handlers in turn everything else. */
  function AfterLines<O>(h: Handlers<O>, start: Values<O>, lines: seq<string>): Values<O> {
    Values(ListAfter(Include, lines, start.includes), ListAfter(Exclude, lines, start.excludes),
           OtherAfter(h, start.other, lines))
  }

  lemma StaysLoaded<O>(h: Handlers<O>, start: Values<O>, lines: seq<string>, r: Loaded<O>, n: int)
    requires lines != [] && LoadedAs(h, start, lines[..|lines| - 1], r, n) && r.problem.Some?
    ensures LoadedAs(h, start, lines, r, n)
  {
    PrefixesAgree(h, start.other, lines);
    assert lines[..n] == lines[..|lines| - 1][..n];
    hide FineAt, AfterLines, Read;
  }

  lemma AfterNext<O>(h: Handlers<O>, start: Values<O>, lines: seq<string>, line: string, number: nat)
    requires LoadLine(h, AfterLines(h, start, lines), line, number).problem.None?
    ensures LoadLine(h, AfterLines(h, start, lines), line, number).config == AfterLines(h, start, lines + [line])
  {
    LineIs(h, AfterLines(h, start, lines), line, number);
    OtherNext(h, start.other, lines, line);
    ListNext(Include, lines, line, start.includes);
    ListNext(Exclude, lines, line, start.excludes);
    hide OtherAfter, ListAfter, LoadLine, Read, Sets, ListOf;
  }

  lemma LoadsOneMore<O>(h: Handlers<O>, start: Values<O>, lines: seq<string>, b: Loaded<O>)
    requires lines != [] && LoadedAs(h, start, lines[..|lines| - 1], b, |lines| - 1)
    ensures var r := LoadLine(h, b.config, lines[|lines| - 1], |lines|);
            LoadedAs(h, start, lines, r, if r.problem.None? then |lines| else |lines| - 1)
  {
    var k := |lines| - 1;
    var before := lines[..k];
    hide FineAt, Fine, AfterLines, OtherAfter, LoadLine, Read, Sets, ListOf;
    PrefixesAgree(h, start.other, lines);
    assert before[..k] == before && lines[..|lines|] == lines && before + [lines[k]] == lines;
    LastIs(h, start, lines);
    if LoadLine(h, b.config, lines[k], k + 1).problem.None? {
      AfterNext(h, start, before, lines[k], k + 1);
    }
  }

  lemma LastIs<O>(h: Handlers<O>, start: Values<O>, lines: seq<string>)
    requires lines != []
    ensures var k := |lines| - 1;
            var c := AfterLines(h, start, lines[..k]);
            var r := LoadLine(h, c, lines[k], k + 1);
            && (r.problem.None? <==> FineAt(h, start.other, lines, k))
            && (r.problem.Some? ==>
                  && r.config == c
                  && r.problem == Some(if Read(lines[k]).NoValue? then Malformed(k + 1) else Rejected(k + 1)))
  {
    var k := |lines| - 1;
    LineIs(h, AfterLines(h, start, lines[..k]), lines[k], k + 1);
    hide Fine, OtherAfter, LoadLine, Read, Sets, ListOf, ListAfter;
  }

  lemma LoadsNothing<O>(h: Handlers<O>, start: Values<O>)
    ensures LoadedAs(h, start, [], Loaded(start, None), 0)
  {
    var none: seq<string> := [];
    assert none[..0] == none;
  }

  /**
    Loading takes the lines up to the first one it does not accept, which it names. What is
    taken decides the lists by its last setters and everything else by the handlers in turn.
  */
  lemma {:induction false} LoadIs<O>(h: Handlers<O>, start: Values<O>, lines: seq<string>)
    ensures var r := Load(h, start, lines); LoadedAs(h, start, lines, r, Taken(r, lines))
  {
    if lines == [] {
      LoadNothing(h, start);
      LoadsNothing(h, start);
    } else {
      LoadIs(h, start, lines[..|lines| - 1]);
      var b := Load(h, start, lines[..|lines| - 1]);
      hide LoadLine;
      if b.problem.Some? {
        StaysLoaded(h, start, lines, b, Taken(b, lines[..|lines| - 1]));
        hide LoadedAs;
      } else {
        LoadEnds(h, start, lines);
        LoadsOneMore(h, start, lines, b);
        TakenIs(h, start, lines);
        hide LoadedAs, Load;
      }
    }
  }

  lemma TakenIs<O>(h: Handlers<O>, start: Values<O>, lines: seq<string>)
    requires lines != [] && Load(h, start, lines[..|lines| - 1]).problem.None?
    ensures var r := Load(h, start, lines); Taken(r, lines) == if r.problem.None? then |lines| else |lines| - 1
  {
    hide Read, Apply;
  }

  lemma LoadEnds<O>(h: Handlers<O>, start: Values<O>, lines: seq<string>)
    requires lines != [] && Load(h, start, lines[..|lines| - 1]).problem.None?
    ensures Load(h, start, lines) == LoadLine(h, Load(h, start, lines[..|lines| - 1]).config, lines[|lines| - 1], |lines|)
  {
  }

  lemma PrefixesAgree<O>(h: Handlers<O>, o: O, lines: seq<string>)
    requires lines != []
    ensures var before := lines[..|lines| - 1];
            forall i: nat | i < |before| :: FineAt(h, o, before, i) == FineAt(h, o, lines, i)
  {
    var before := lines[..|lines| - 1];
    forall i: nat | i < |before| ensures FineAt(h, o, before, i) == FineAt(h, o, lines, i) {
      assert before[..i] == lines[..i];
    }
  }

  /** So a file loads without a problem exactly if every line is accepted. */
  lemma LoadsIff<O>(h: Handlers<O>, start: Values<O>, lines: seq<string>)
    ensures Load(h, start, lines).problem.None? <==> forall i: nat | i < |lines| :: FineAt(h, start.other, lines, i)
  {
    LoadIs(h, start, lines);
    hide Load, FineAt, AfterLines, Read;
  }

  // ------------------------------------------------------------ one line

  predicate All(s: string, p: char -> bool) { forall c | c in s :: p(c) }

  /** Position `i` holds the first character of the line that is no blank. */
  predicate FirstAt(line: string, i: nat) {
    i < |line| && !IsSpace(line[i]) && All(line[..i], IsSpace)
  }

  lemma {:induction false} TrimLeftIs(s: string)
    ensures TrimLeft(s, IsSpace) == "" <==> All(s, IsSpace)
    ensures TrimLeft(s, IsSpace) != "" ==> exists i: nat :: i < |s| && FirstAt(s, i) && TrimLeft(s, IsSpace) == s[i..]
  {
    hide IsSpace;
    if s != "" {
      if IsSpace(s[0]) {
        TrimLeftIs(s[1..]);
        assert s == [s[0]] + s[1..];
        if TrimLeft(s, IsSpace) != "" {
          var i: nat :| i < |s[1..]| && FirstAt(s[1..], i) && TrimLeft(s[1..], IsSpace) == s[1..][i..];
          assert s[..i + 1] == [s[0]] + s[1..][..i];
          assert FirstAt(s, i + 1) && s[i + 1..] == s[1..][i..];
        }
      } else {
        assert FirstAt(s, 0) && s[0..] == s && s[0] in s;
      }
    }
  }

  lemma {:induction false} TrimRightKeeps(s: string, c: char)
    requires !IsSpace(c)
    ensures c in TrimRight(s, IsSpace) <==> c in s
    ensures s != "" && !IsSpace(s[0]) ==> TrimRight(s, IsSpace) != "" && TrimRight(s, IsSpace)[0] == s[0]
  {
    hide IsSpace;
    if s != "" && IsSpace(s[|s| - 1]) {
      TrimRightKeeps(s[..|s| - 1], c);
      assert s == s[..|s| - 1] + [s[|s| - 1]];
    }
  }

  lemma BlanksBefore(line: string, j: nat)
    requires FirstAt(line, j)
    ensures forall k: nat | k < j :: IsSpace(line[k])
  {
    forall k: nat | k < j ensures IsSpace(line[k]) {
      assert line[..j][k] in line[..j];
    }
  }

  lemma FirstIsUnique(line: string, i: nat, j: nat)
    requires FirstAt(line, i) && FirstAt(line, j)
    ensures i == j
  {
    BlanksBefore(line, i);
    BlanksBefore(line, j);
  }

  /**
    A line says nothing exactly if its first character that is no blank is `#`, or if there is
    none; any other line without an equals sign is malformed, and all others set something.
  */
  lemma MeaningIff(line: string)
    ensures Read(line).Blank? <==> forall i: nat | FirstAt(line, i) :: line[i] == '#'
    ensures Read(line).NoValue? <==> '=' !in line && !Read(line).Blank?
  {
    EqualsIsNoBlank();
    hide IsSpace, TrimSpace, Read, TrimRight, TrimLeft, FirstAt;
    TrimmedMeaning(line);
    TrimmedIs(line);
    TrimLeftIs(line);
    TrimRightKeeps(TrimLeft(line, IsSpace), '=');
    if TrimLeft(line, IsSpace) == "" {
      AllBlank(line);
    } else {
      var i: nat :| i < |line| && FirstAt(line, i) && TrimLeft(line, IsSpace) == line[i..];
      FirstIs(line, i);
      forall j: nat | FirstAt(line, j) ensures j == i {
        FirstIsUnique(line, i, j);
      }
    }
  }

  /** What the trimmed line says. */
  lemma TrimmedMeaning(line: string)
    ensures var t := TrimSpace(line);
            && (Read(line).Blank? <==> t == "" || t[0] == '#')
            && (Read(line).NoValue? <==> '=' !in t && !Read(line).Blank?)
  {
    var t := TrimSpace(line);
    hide TrimSpace, Cleaned;
    if '=' in t {
      Finds(t, '=');
    } else {
      FindNone(t, '=');
    }
  }

  lemma AllBlank(line: string)
    requires All(line, IsSpace)
    ensures (forall i: nat :: !FirstAt(line, i)) && '=' !in line
  {
    EqualsIsNoBlank();
    hide IsSpace;
    forall i: nat ensures !FirstAt(line, i) {
      assert i < |line| ==> line[i] in line;
    }
  }

  lemma FirstIs(line: string, i: nat)
    requires FirstAt(line, i)
    ensures i < |line| && !IsSpace(line[i]) && line[i..][0] == line[i] && ('=' in line <==> '=' in line[i..])
  {
    EqualsIsNoBlank();
    hide IsSpace;
    assert line == line[..i] + line[i..];
  }

  lemma TrimmedIs(line: string)
    ensures TrimSpace(line) == TrimRight(TrimLeft(line, IsSpace), IsSpace)
    ensures TrimLeft(line, IsSpace) != "" ==> !IsSpace(TrimLeft(line, IsSpace)[0])
    ensures TrimLeft(line, IsSpace) == "" ==> TrimSpace(line) == ""
  {
    TrimLeftShape(line, IsSpace);
    hide TrimLeft;
  }

  // ------------------------------------------------------------ one value

  lemma QuotesAreNoBlanks()
    ensures forall c | IsQuote(c) :: !IsSpace(c) && c != '#'
    ensures !IsSpace('#') && !IsQuote('#') && IsQuote('"') && IsQuote('\'') && IsSpace('\t') && IsSpace(' ')
  {
  }

  lemma {:induction false} TrimLeftOff(a: string, b: string, cut: char -> bool)
    requires All(a, cut) && (b == "" || !cut(b[0]))
    ensures TrimLeft(a + b, cut) == b
  {
    if a == "" {
      assert a + b == b;
    } else {
      assert (a + b)[1..] == a[1..] + b;
      TrimLeftOff(a[1..], b, cut);
    }
  }

  lemma {:induction false} TrimRightOff(a: string, b: string, cut: char -> bool)
    requires All(b, cut) && (a == "" || !cut(a[|a| - 1]))
    ensures TrimRight(a + b, cut) == a
    decreases |b|
  {
    if b == "" {
      assert a + b == a;
    } else {
      assert (a + b)[..|a + b| - 1] == a + b[..|b| - 1];
      TrimRightOff(a, b[..|b| - 1], cut);
    }
  }

  lemma TrimsOff(a: string, b: string, c: string, cut: char -> bool)
    requires All(a, cut) && All(c, cut) && b != "" && Trimmed(b, cut)
    ensures Trim(a + b + c, cut) == b
  {
    assert a + b + c == a + (b + c);
    TrimLeftOff(a, b + c, cut);
    TrimRightOff(b, c, cut);
  }

  /** A value as it should be read: something, with no comment and no outer blanks or quotes. */
  predicate PlainValue(v: string) { v != "" && '#' !in v && Trimmed(v, IsSpace) && Trimmed(v, IsQuote) }

  lemma NoComment(pad: string, q: string, v: string, r: string, d: string)
    requires All(pad, IsSpace) && All(d, IsSpace) && All(q, IsQuote) && All(r, IsQuote) && PlainValue(v)
    ensures Cleaned(pad + (q + v + r) + d) == v
  {
    QuotesAreNoBlanks();
    hide IsSpace, IsQuote;
    var core := q + v + r;
    TrimsOff(pad, core, d, IsSpace);
    FindNone(core, '#');
    assert core[..|core|] == core;
    TrimsOff(q, v, r, IsQuote);
    hide Trim;
    assert Trim(core, IsQuote) == v;
    TrimmedStays(v, IsSpace);
  }

  lemma CommentIsCut(core: string, d: string, comment: string)
    requires core != "" && Trimmed(core, IsSpace) && '#' !in core && All(d, IsSpace) && comment != "" && comment[0] == '#'
    ensures var t := TrimSpace(core + d + comment); t[..Find(t, '#')] == core + d
  {
    QuotesAreNoBlanks();
    hide IsSpace;
    var text := core + d;
    var tail := TrimRight(comment, IsSpace);
    HashStays(comment);
    assert text + comment == (text + "#") + comment[1..];
    TrimRightTail(text + "#", comment[1..], IsSpace);
    TrimLeftOff("", text + comment, IsSpace);
    assert "" + (text + comment) == text + comment;
    var rest := TrimRight(comment[1..], IsSpace);
    FindIs(text, '#', rest);
    assert text + "#" + rest == text + ['#'] + rest;
    assert (text + "#" + rest)[..|text|] == text;
    hide Trim;
  }

  lemma HashStays(comment: string)
    requires comment != "" && comment[0] == '#'
    ensures TrimSpace("#") == "#"
  {
  }

  /** Stripping quotes leaves the closing ones if blanks follow them. */
  lemma UnquotedIs(q: string, v: string, r: string, d: string)
    requires All(d, IsSpace) && All(q, IsQuote) && All(r, IsQuote) && PlainValue(v)
    ensures TrimSpace(Trim(q + v + r + d, IsQuote)) == if d == "" then v else v + r
  {
    QuotesAreNoBlanks();
    hide IsSpace, IsQuote;
    if d == "" {
      assert q + v + r + d == q + v + r;
      TrimsOff(q, v, r, IsQuote);
      TrimmedStays(v, IsSpace);
    } else {
      BlanksStay(q, v, r, d);
      hide Trim;
    }
  }

  lemma BlanksStay(q: string, v: string, r: string, d: string)
    requires d != "" && All(d, IsSpace) && All(q, IsQuote) && All(r, IsQuote) && PlainValue(v)
    ensures Trim(q + v + r + d, IsQuote) == v + r + d && TrimSpace(v + r + d) == v + r
  {
    QuotesAreNoBlanks();
    var t := v + r + d;
    assert t[0] == v[0] && t[|t| - 1] == d[|d| - 1] && d[|d| - 1] in d;
    assert r != "" ==> r[|r| - 1] in r;
    hide IsSpace, IsQuote;
    assert q + v + r + d == q + t + "";
    TrimsOff(q, t, "", IsQuote);
    assert t == "" + (v + r) + d;
    TrimsOff("", v + r, d, IsSpace);
    hide Trim;
  }

  /**
    A value in quotes and with a comment behind it. The closing quotes are lost, as intended,
    exactly if no blank stands between them and the comment.
  */
  lemma CommentedValue(pad: string, q: string, v: string, r: string, d: string, comment: string)
    requires All(pad, IsSpace) && All(d, IsSpace) && All(q, IsQuote) && All(r, IsQuote) && PlainValue(v)
    requires comment != "" && comment[0] == '#'
    ensures Cleaned(pad + (q + v + r + d + comment)) == if d == "" then v else v + r
  {
    var core := q + v + r;
    CoreIsPlain(q, v, r);
    CommentIsCut(core, d, comment);
    assert core + d + comment != "" && (core + d + comment)[0] == core[0];
    LeadingBlanks(pad, core + d + comment);
    UnquotedIs(q, v, r, d);
    hide Trim, TrimSpace, All, PlainValue;
  }

  lemma CoreIsPlain(q: string, v: string, r: string)
    requires All(q, IsQuote) && All(r, IsQuote) && PlainValue(v)
    ensures var core := q + v + r; core != "" && Trimmed(core, IsSpace) && '#' !in core && !IsSpace(core[0])
  {
    QuotesAreNoBlanks();
    hide IsSpace, IsQuote;
    assert q != "" ==> q[0] in q;
    assert r != "" ==> r[|r| - 1] in r;
  }

  lemma LeadingBlanks(pad: string, s: string)
    requires All(pad, IsSpace) && s != "" && !IsSpace(s[0])
    ensures TrimSpace(pad + s) == TrimSpace(s)
  {
    TrimLeftOff(pad, s, IsSpace);
    TrimLeftOff("", s, IsSpace);
    assert "" + s == s;
  }

  /** So the loader reads a quoted value as meant exactly if nothing is quoted, or no blank precedes the comment. */
  lemma CommentedValueIff(q: string, v: string, r: string, d: string, comment: string)
    requires All(d, IsSpace) && All(q, IsQuote) && All(r, IsQuote) && PlainValue(v)
    requires comment != "" && comment[0] == '#'
    ensures Cleaned(q + v + r + d + comment) == v <==> r == "" || d == ""
  {
    CommentedValue("", q, v, r, d, comment);
    assert "" + (q + v + r + d + comment) == q + v + r + d + comment;
    assert |v + r| == |v| + |r|;
    hide Cleaned;
    if r == "" {
      assert v + r == v;
    }
  }

  /** The key ends at the first equals sign, and blanks around it do not count. */
  lemma ReadsSetting(pad: string, key: string, b: string, raw: string)
    requires All(pad, IsSpace) && All(b, IsSpace) && raw != "" && !IsSpace(raw[|raw| - 1])
    requires key != "" && Trimmed(key, IsSpace) && '=' !in key && key[0] != '#'
    ensures Read(pad + key + b + "=" + raw) == Setting(key, Cleaned(raw))
  {
    EqualsIsNoBlank();
    hide IsSpace, Cleaned;
    var line := key + b + "=" + raw;
    assert pad + key + b + "=" + raw == pad + line + "";
    TrimsOff(pad, line, "", IsSpace);
    assert forall c | c in b :: c != '=';
    SplitOnceIs(key + b, '=', raw);
    assert line == (key + b) + ['='] + raw && line[0] == key[0];
    assert "" + key + b == key + b;
    TrimsOff("", key, b, IsSpace);
    hide Trim, SplitOnce;
  }

  lemma EqualsIsNoBlank()
    ensures !IsSpace('=')
  {
  }

  lemma SmallTexts()
    ensures All("\t", IsSpace) && All(" ", IsSpace) && All("", IsSpace)
    ensures All("'", IsQuote) && All("\"", IsQuote) && PlainValue("a")
    ensures !IsSpace('b')
  {
  }

  /** Lines as users write them: tabs, either quote, and a comment. */
  lemma QuotedLine(f: Field)
    ensures Read("\t" + Key(f) + "\t" + "=" + (" " + ("'" + "a" + "'" + "" + "#b"))) == Setting(Key(f), "a")
  {
    SmallTexts();
    KeyIsPlain(f);
    hide Read, Cleaned, IsSpace, IsQuote, All, PlainValue, Key;
    CommentedValue(" ", "'", "a", "'", "", "#b");
    ReadsSetting("\t", Key(f), "\t", " " + ("'" + "a" + "'" + "" + "#b"));
  }

  /** A blank before the comment, and the closing quote becomes part of the pattern. */
  lemma QuoteStays(f: Field)
    ensures Read("" + Key(f) + "" + "=" + ("" + ("\"" + "a" + "\"" + " " + "#b"))) == Setting(Key(f), "a" + "\"")
  {
    SmallTexts();
    KeyIsPlain(f);
    hide Read, Cleaned, IsSpace, IsQuote, All, PlainValue, Key;
    CommentedValue("", "\"", "a", "\"", " ", "#b");
    ReadsSetting("", Key(f), "", "" + ("\"" + "a" + "\"" + " " + "#b"));
  }
}
