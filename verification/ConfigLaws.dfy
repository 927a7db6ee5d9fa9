/**
  What editing the user lists promises: the lists come back from the file, every other
  setting is as before, and saving twice is saving once.
*/
module ConfigLaws {
  import opened Common
  import opened Text
  import opened ConfigFile

  // ------------------------------------------------------------ trimming

  lemma {:induction false} TrimRightTail(a: string, b: string, cut: char -> bool)
    requires a != "" && !cut(a[|a| - 1])
    ensures TrimRight(a + b, cut) == a + TrimRight(b, cut)
    decreases |b|
  {
    if b == "" {
      assert a + b == a;
    } else {
      assert (a + b)[..|a + b| - 1] == a + b[..|b| - 1];
      if cut(b[|b| - 1]) {
        TrimRightTail(a, b[..|b| - 1], cut);
      }
    }
  }

  lemma {:induction false} TrimLeftShape(s: string, cut: char -> bool)
    ensures |TrimLeft(s, cut)| <= |s| && (forall c | c in TrimLeft(s, cut) :: c in s)
    ensures TrimLeft(s, cut) != "" ==> !cut(TrimLeft(s, cut)[0]) && TrimLeft(s, cut)[|TrimLeft(s, cut)| - 1] == s[|s| - 1]
    ensures |TrimLeft(s, cut)| == |s| <==> s == "" || !cut(s[0])
  {
    if s != "" && cut(s[0]) {
      TrimLeftShape(s[1..], cut);
    }
  }

  lemma {:induction false} TrimRightShape(s: string, cut: char -> bool)
    ensures |TrimRight(s, cut)| <= |s| && (forall c | c in TrimRight(s, cut) :: c in s)
    ensures TrimRight(s, cut) != "" ==> !cut(TrimRight(s, cut)[|TrimRight(s, cut)| - 1]) && TrimRight(s, cut)[0] == s[0]
    ensures |TrimRight(s, cut)| == |s| <==> s == "" || !cut(s[|s| - 1])
  {
    if s != "" && cut(s[|s| - 1]) {
      TrimRightShape(s[..|s| - 1], cut);
    }
  }

  lemma TrimShape(s: string, cut: char -> bool)
    ensures |Trim(s, cut)| <= |s| && Trimmed(Trim(s, cut), cut) && forall c | c in Trim(s, cut) :: c in s
    ensures |Trim(s, cut)| == |s| ==> Trimmed(s, cut)
  {
    TrimLeftShape(s, cut);
    TrimRightShape(TrimLeft(s, cut), cut);
  }

  // ------------------------------------------------------------ lists

  predicate Clean(p: string) { p != "" && Trimmed(p, IsSpace) }

  lemma {:induction false} ItemsShape(parts: seq<string>, p: string)
    requires p in Items(parts)
    ensures Clean(p) && exists q | q in parts :: forall c | c in p :: c in q
  {
    var last := parts[|parts| - 1];
    TrimShape(last, IsSpace);
    if p in Items(parts[..|parts| - 1]) {
      ItemsShape(parts[..|parts| - 1], p);
      var q :| q in parts[..|parts| - 1] && forall c | c in p :: c in q;
      assert q in parts;
    } else {
      assert last in parts;
    }
  }

  lemma CleanStays(p: string)
    requires Clean(p)
    ensures TrimSpace(p) == p && p != ""
  {
  }

  lemma {:induction false} ItemsOfClean(ps: seq<string>)
    requires forall p | p in ps :: Clean(p)
    ensures Items(ps) == ps
  {
    hide TrimSpace, Clean;
    if ps != [] {
      var last := ps[|ps| - 1];
      assert last in ps;
      ItemsOfClean(ps[..|ps| - 1]);
      CleanStays(last);
    }
  }

  lemma {:induction false} SplitChars(s: string, c: char, p: string)
    requires p in Split(s, c)
    ensures forall x | x in p :: x in s
    decreases |s|
  {
    var i := Find(s, c);
    if i < |s| && p != s[..i] {
      SplitChars(s[i + 1..], c, p);
    }
  }

  /** A parsed list never takes more room than its text. */
  lemma {:induction false} JoinedItemsFit(parts: seq<string>)
    requires parts != []
    ensures |Join(Items(parts), ",")| <= |Join(parts, ",")|
  {
    var init, last := parts[..|parts| - 1], parts[|parts| - 1];
    TrimShape(last, IsSpace);
    assert |TrimSpace(last)| <= |last|;
    hide TrimSpace, Trim, Trimmed;
    if init == [] {
      assert Join(parts, ",") == last;
    } else {
      JoinedItemsFit(init);
      JoinLast(init, last);
      assert parts == init + [last];
      if TrimSpace(last) == "" {
        assert Items(parts) == Items(init);
      } else if Items(init) == [] {
        assert Items(parts) == [TrimSpace(last)];
      } else {
        assert Items(parts) == Items(init) + [TrimSpace(last)];
        JoinLast(Items(init), TrimSpace(last));
      }
    }
  }

  lemma {:induction false} JoinLast(parts: seq<string>, last: string)
    requires parts != []
    ensures Join(parts + [last], ",") == Join(parts, ",") + "," + last
  {
    if |parts| == 1 {
      assert (parts + [last])[1..] == [last];
    } else {
      assert (parts + [last])[1..] == parts[1..] + [last];
      JoinLast(parts[1..], last);
    }
  }

  lemma SplitShape(s: string) returns (head: string, rest: Option<string>)
    ensures rest.None? ==> head == s && Split(s, ',') == [s]
    ensures rest.Some? ==> s == head + "," + rest.value && Split(s, ',') == [head] + Split(rest.value, ',')
  {
    var i := Find(s, ',');
    head, rest := s[..i], if i < |s| then Some(s[i + 1..]) else None;
  }

  lemma {:induction false} JoinSplit(s: string)
    ensures Join(Split(s, ','), ",") == s
    decreases |s|
  {
    hide Find;
    var head, rest := SplitShape(s);
    hide Split;
    if rest.Some? {
      JoinSplit(rest.value);
      assert Split(s, ',')[1..] == Split(rest.value, ',');
    }
  }

  lemma {:induction false} JoinChars(ps: seq<string>, c: char)
    requires c != ','
    ensures c in Join(ps, ",") <==> exists p | p in ps :: c in p
  {
    if |ps| == 1 {
      assert ps[0] in ps;
    } else if ps != [] {
      JoinChars(ps[1..], c);
      assert ps == [ps[0]] + ps[1..];
      assert c in Join(ps, ",") <==> c in ps[0] || c in Join(ps[1..], ",");
    }
  }

  lemma {:induction false} JoinEnds(ps: seq<string>)
    requires ps != [] && forall i | 0 <= i < |ps| :: ps[i] != ""
    ensures Join(ps, ",") != "" && Join(ps, ",")[0] == ps[0][0]
    ensures var last := ps[|ps| - 1]; Join(ps, ",")[|Join(ps, ",")| - 1] == last[|last| - 1]
  {
    if |ps| > 1 {
      var tail := Join(ps[1..], ",");
      JoinEnds(ps[1..]);
      assert Join(ps, ",") == ps[0] + "," + tail;
      hide Join;
    }
  }

  // ------------------------------------------------------------ a written list

  /** Patterns a configuration line can hold, one by one. */
  ghost predicate Separable(ps: seq<string>) {
    forall p | p in ps :: Clean(p) && ',' !in p && '#' !in p
  }

  /** The lists that survive a line: blanks, commas, `#` and outer quotes do not. */
  ghost predicate WellBehaved(ps: seq<string>) { Separable(ps) && Trimmed(Join(ps, ","), IsQuote) }

  /** What a written list is read back as. */
  function ReadBack(ps: seq<string>): seq<string> { ListOf(Cleaned(TrimRight(Join(ps, ","), IsSpace))) }

  lemma WrittenTrimmed(f: Field, ps: seq<string>)
    ensures TrimSpace(Written(f, ps)) == Key(f) + "=" + TrimRight(Join(ps, ","), IsSpace)
    ensures Owns(f, Written(f, ps))
  {
    var head := Key(f) + "=";
    KeyIsPlain(f);
    TrimRightTail(head, Join(ps, ","), IsSpace);
  }

  lemma ReadsAs(f: Field, line: string, rest: string)
    requires TrimSpace(line) == Key(f) + "=" + rest
    ensures Read(line) == Setting(Key(f), Cleaned(rest))
  {
    hide Key, TrimSpace, Cleaned;
    KeyIsPlain(f);
    SplitOnceIs(Key(f), '=', rest);
    KeyTrims(f);
  }

  lemma KeyTrims(f: Field)
    ensures TrimSpace(Key(f)) == Key(f)
  {
    KeyIsPlain(f);
  }

  lemma WrittenReads(f: Field, ps: seq<string>)
    ensures Read(Written(f, ps)).Setting? && Read(Written(f, ps)).key == Key(f)
    ensures ListOf(Read(Written(f, ps)).value) == ReadBack(ps)
  {
    hide Key, Cleaned, TrimSpace, ListOf;
    WrittenTrimmed(f, ps);
    ReadsAs(f, Written(f, ps), TrimRight(Join(ps, ","), IsSpace));
  }

  lemma OwnedLineSets(f: Field, line: string)
    requires Owns(f, line)
    ensures Read(line).Setting? && Read(line).key == Key(f)
  {
    hide Key, Cleaned, TrimSpace;
    var t := TrimSpace(line);
    var n := |Key(f) + "="|;
    assert t == Key(f) + "=" + t[n..];
    ReadsAs(f, line, t[n..]);
  }

  /** Separable patterns reach the quote stripping as they were written. */
  lemma SeparableText(ps: seq<string>)
    requires Separable(ps)
    ensures var j := Join(ps, ","); Trimmed(j, IsSpace) && '#' !in j && TrimRight(j, IsSpace) == j
    ensures Cleaned(TrimRight(Join(ps, ","), IsSpace)) == TrimSpace(Trim(Join(ps, ","), IsQuote))
  {
    var j := Join(ps, ",");
    JoinChars(ps, '#');
    FindNone(j, '#');
    if ps != [] {
      JoinEnds(ps);
      assert ps[0] in ps && ps[|ps| - 1] in ps;
    }
    assert j[..|j|] == j;
  }

  lemma WellBehavedReadsBack(ps: seq<string>)
    requires WellBehaved(ps)
    ensures ReadBack(ps) == ps
  {
    var j := Join(ps, ",");
    SeparableText(ps);
    assert Trim(j, IsQuote) == j && TrimSpace(j) == j;
    if ps == [] {
      assert Split("", ',') == [""] && Items([""]) == [];
    } else {
      SplitJoined(ps, ',');
      ItemsOfClean(ps);
    }
  }

  lemma ReadBackIsSeparable(ps: seq<string>)
    ensures Separable(ReadBack(ps))
  {
    hide IsSpace, IsQuote;
    var v := TrimSpace(TrimRight(Join(ps, ","), IsSpace));
    var cut := v[..Find(v, '#')];
    var unquoted := Trim(cut, IsQuote);
    var value := TrimSpace(unquoted);
    TrimShape(cut, IsQuote);
    TrimShape(unquoted, IsSpace);
    TrimShape(value, IsSpace);
    var parts := Split(TrimSpace(value), ',');
    forall p | p in ReadBack(ps) ensures Clean(p) && ',' !in p && '#' !in p {
      ItemsShape(parts, p);
      var q :| q in parts && forall c | c in p :: c in q;
      SplitChars(TrimSpace(value), ',', q);
    }
  }

  lemma OuterQuotesAreLost(ps: seq<string>)
    requires Separable(ps) && ReadBack(ps) == ps
    ensures Trimmed(Join(ps, ","), IsQuote)
  {
    var j := Join(ps, ",");
    SeparableText(ps);
    var unquoted := Trim(j, IsQuote);
    var value := TrimSpace(unquoted);
    TrimShape(j, IsQuote);
    TrimShape(unquoted, IsSpace);
    TrimShape(value, IsSpace);
    JoinedItemsFit(Split(TrimSpace(value), ','));
    JoinSplit(TrimSpace(value));
  }

  /** A written list is read back as it was if and only if it is well behaved. */
  lemma ReadBackIff(ps: seq<string>)
    ensures ReadBack(ps) == ps <==> WellBehaved(ps)
  {
    if WellBehaved(ps) {
      WellBehavedReadsBack(ps);
    }
    if ReadBack(ps) == ps {
      ReadBackIsSeparable(ps);
      OuterQuotesAreLost(ps);
    }
  }

  /** A valid pattern with a repetition count is cut in two. */
  lemma RepetitionIsLost()
    ensures ReadBack(["a{1,3}"]) != ["a{1,3}"]
  {
    var p := "a{1,3}";
    assert p[3] == ',' && p in [p];
    ReadBackIff([p]);
  }

  // ------------------------------------------------------------ loading what was saved

  /** A line that sets the field: its own key, or the legacy key of the exclude list. */
  predicate Sets(f: Field, line: string) {
    var m := Read(line);
    m.Setting? && (m.key == Key(f) || (f.Exclude? && m.key == LEGACY))
  }

  function LastSetter(f: Field, lines: seq<string>): (r: Option<nat>)
    ensures r.Some? ==> r.value < |lines|
  {
    if lines == [] then None
    else if Sets(f, lines[|lines| - 1]) then Some(|lines| - 1)
    else LastSetter(f, lines[..|lines| - 1])
  }

  lemma {:induction false} LastSetterIs(f: Field, lines: seq<string>)
    ensures var r := LastSetter(f, lines);
            && (r.Some? ==> Sets(f, lines[r.value]) && forall i | r.value < i < |lines| :: !Sets(f, lines[i]))
            && (r.None? ==> forall i | 0 <= i < |lines| :: !Sets(f, lines[i]))
  {
    hide Sets;
    if lines != [] {
      LastSetterIs(f, lines[..|lines| - 1]);
    }
  }

  /** What a line, rewritten if it is owned, does to the list. */
  function Next(f: Field, line: string, ps: seq<string>, before: seq<string>): seq<string> {
    if Owns(f, line) then ps else if Sets(f, line) then ListOf(Read(line).value) else before
  }

  /** The list after loading rewritten lines: the last line that sets it decides. */
  function Decided(f: Field, lines: seq<string>, ps: seq<string>, start: seq<string>): seq<string> {
    match LastSetter(f, lines)
    case None => start
    case Some(i) => Next(f, lines[i], ps, start)
  }

  /** The list after loading a saved file: a line is added at the end if there was none. */
  function Outcome(f: Field, lines: seq<string>, ps: seq<string>): seq<string> {
    if Owned(f, lines) then Decided(f, lines, ps, []) else ps
  }

  ghost predicate Storable<O>(h: Handlers<O>, ps: seq<string>) {
    WellBehaved(ps) && AllValid(h, ps) && OneLine(ps)
  }

  lemma ApplyWritten<O>(h: Handlers<O>, c: Values<O>, f: Field, ps: seq<string>, number: nat)
    requires WellBehaved(ps) && AllValid(h, ps)
    ensures LoadLine(h, c, Written(f, ps), number)
         == Loaded(if f.Include? then c.(includes := ps) else c.(excludes := ps), None)
  {
    hide Read, WellBehaved;
    WrittenReads(f, ps);
    WellBehavedReadsBack(ps);
    KeysDiffer();
    hide Key;
  }

  lemma DecidedNext(f: Field, lines: seq<string>, ps: seq<string>, start: seq<string>)
    requires lines != []
    ensures var n := |lines| - 1;
            Decided(f, lines, ps, start) == Next(f, lines[n], ps, Decided(f, lines[..n], ps, start))
  {
    hide Owns, Read, ListOf;
    if Owns(f, lines[|lines| - 1]) {
      OwnedLineSets(f, lines[|lines| - 1]);
    }
  }

  /** One line, rewritten or not, moves the lists and leaves everything else as the original line does. */
  lemma RewrittenLine<O>(h: Handlers<O>, c: Values<O>, inc: seq<string>, exc: seq<string>,
                         x: seq<string>, y: seq<string>, line: string, number: nat)
    requires WellBehaved(inc) && AllValid(h, inc) && WellBehaved(exc) && AllValid(h, exc)
    requires LoadLine(h, c, line, number).problem.None?
    ensures LoadLine(h, Values(x, y, c.other), Rewrite(inc, exc, line), number)
         == Loaded(Values(Next(Include, line, inc, x), Next(Exclude, line, exc, y),
                          LoadLine(h, c, line, number).config.other), None)
  {
    hide Read, Owns, WellBehaved, AllValid, Written, ListOf;
    KeysDiffer();
    OneOwner(line);
    if Owns(Include, line) {
      OwnedLineSets(Include, line);
      ApplyWritten(h, Values(x, y, c.other), Include, inc, number);
    } else if Owns(Exclude, line) {
      OwnedLineSets(Exclude, line);
      ApplyWritten(h, Values(x, y, c.other), Exclude, exc, number);
    }
    hide Key;
  }

  lemma {:induction false} RewrittenLoads<O>(h: Handlers<O>, start: Values<O>, lines: seq<string>,
                                             inc: seq<string>, exc: seq<string>)
    requires WellBehaved(inc) && AllValid(h, inc) && WellBehaved(exc) && AllValid(h, exc)
    requires Load(h, start, lines).problem.None?
    ensures Load(h, start, Rewritten(inc, exc, lines))
         == Loaded(Values(Decided(Include, lines, inc, start.includes), Decided(Exclude, lines, exc, start.excludes),
                          Load(h, start, lines).config.other), None)
  {
    hide Read, Owns, WellBehaved, AllValid, Written, ListOf, Rewrite, LoadLine, Decided, Next;
    if lines == [] {
      DecidedNothing(Include, inc, start.includes);
      DecidedNothing(Exclude, exc, start.excludes);
    } else {
      var n := |lines| - 1;
      RewrittenLoads(h, start, lines[..n], inc, exc);
      assert Rewritten(inc, exc, lines)[..n] == Rewritten(inc, exc, lines[..n]);
      RewrittenLine(h, Load(h, start, lines[..n]).config, inc, exc,
                    Decided(Include, lines[..n], inc, start.includes), Decided(Exclude, lines[..n], exc, start.excludes),
                    lines[n], n + 1);
      DecidedNext(Include, lines, inc, start.includes);
      DecidedNext(Exclude, lines, exc, start.excludes);
    }
  }

  lemma DecidedNothing(f: Field, ps: seq<string>, start: seq<string>)
    ensures Decided(f, [], ps, start) == start
  {
  }

  lemma LoadMore<O>(h: Handlers<O>, start: Values<O>, lines: seq<string>, line: string)
    requires Load(h, start, lines).problem.None?
    ensures Load(h, start, lines + [line]) == LoadLine(h, Load(h, start, lines).config, line, |lines| + 1)
  {
    assert (lines + [line])[..|lines|] == lines;
  }

  lemma {:induction false} OwnedDecides(f: Field, lines: seq<string>, ps: seq<string>, start: seq<string>)
    requires Owned(f, lines)
    ensures Decided(f, lines, ps, start) == Decided(f, lines, ps, [])
  {
    hide Owns, Read, ListOf;
    var l :| l in lines && Owns(f, l);
    OwnedLineSets(f, l);
    LastSetterIs(f, lines);
    assert Sets(f, l);
  }

  lemma UpdatedLoads<O>(h: Handlers<O>, start: Values<O>, lines: seq<string>, inc: seq<string>, exc: seq<string>)
    requires WellBehaved(inc) && AllValid(h, inc) && WellBehaved(exc) && AllValid(h, exc)
    requires Load(h, start, lines).problem.None?
    ensures Load(h, start, Updated(inc, exc, lines))
         == Loaded(Values(Outcome(Include, lines, inc), Outcome(Exclude, lines, exc),
                          Load(h, start, lines).config.other), None)
  {
    hide WellBehaved, AllValid, Written, LoadLine, Load, Decided, Owned, Rewritten;
    RewrittenLoads(h, start, lines, inc, exc);
    var first := Rewritten(inc, exc, lines);
    var second := first + Missing(Include, inc, lines);
    if Owned(Include, lines) {
      OwnedDecides(Include, lines, inc, start.includes);
      assert second == first;
    } else {
      LoadMore(h, start, first, Written(Include, inc));
      ApplyWritten(h, Load(h, start, first).config, Include, inc, |first| + 1);
    }
    if Owned(Exclude, lines) {
      OwnedDecides(Exclude, lines, exc, start.excludes);
      assert Updated(inc, exc, lines) == second;
    } else {
      LoadMore(h, start, second, Written(Exclude, exc));
      ApplyWritten(h, Load(h, start, second).config, Exclude, exc, |second| + 1);
    }
  }

  // ------------------------------------------------------------ the saved file

  predicate OneLine(ps: seq<string>) { '\n' !in Join(ps, ",") }

  lemma WrittenIsLine(f: Field, ps: seq<string>)
    ensures '\n' in Written(f, ps) <==> !OneLine(ps)
  {
    KeyIsPlain(f);
    assert forall c :: c in Written(f, ps) <==> c in Key(f) || c == '=' || c in Join(ps, ",");
  }

  lemma GeneratedComment(f: Field)
    ensures var l := "# CPU Manager Configuration"; !Owns(f, l) && Read(l).Blank? && '\n' !in l
    ensures !Owns(f, "") && Read("").Blank?
  {
    var l := "# CPU Manager Configuration";
    assert |l| == 27 && l[0] == '#' && l[26] == 'n';
    TrimmedStays(l, IsSpace);
  }

  lemma LinesArePlain(inc: seq<string>, exc: seq<string>, file: Option<string>)
    requires OneLine(inc) && OneLine(exc)
    ensures forall l | l in NewLines(inc, exc, file) :: '\n' !in l
  {
    hide Written, OneLine, Owns;
    WrittenIsLine(Include, inc);
    WrittenIsLine(Exclude, exc);
    if file.None? {
      GeneratedComment(Include);
    }
  }

  lemma SavedSplits(inc: seq<string>, exc: seq<string>, file: Option<string>)
    requires OneLine(inc) && OneLine(exc)
    ensures Split(Saved(inc, exc, file), '\n') == NewLines(inc, exc, file)
  {
    hide OneLine;
    LinesArePlain(inc, exc, file);
    assert NewLines(inc, exc, file) != [];
    hide NewLines;
    SplitJoined(NewLines(inc, exc, file), '\n');
  }

  lemma GeneratedLoads<O>(h: Handlers<O>, start: Values<O>, inc: seq<string>, exc: seq<string>)
    requires WellBehaved(inc) && AllValid(h, inc) && WellBehaved(exc) && AllValid(h, exc)
    ensures Load(h, start, Generated(inc, exc)) == Loaded(Values(inc, exc, start.other), None)
  {
    hide WellBehaved, AllValid, Written, LoadLine, Load, Read;
    var comment, w, v := "# CPU Manager Configuration", Written(Include, inc), Written(Exclude, exc);
    GeneratedComment(Include);
    LoadNothing(h, start);
    LoadMore(h, start, [], comment);
    BlankLine(h, start, comment, 1);
    assert [] + [comment] == [comment];
    LoadMore(h, start, [comment], w);
    ApplyWritten(h, start, Include, inc, 2);
    LoadMore(h, start, [comment] + [w], v);
    ApplyWritten(h, start.(includes := inc), Exclude, exc, 3);
    LoadMore(h, start, [comment] + [w] + [v], "");
    BlankLine(h, Values(inc, exc, start.other), "", 4);
    assert Generated(inc, exc) == [comment] + [w] + [v] + [""];
  }

  lemma LoadNothing<O>(h: Handlers<O>, start: Values<O>)
    ensures Load(h, start, []) == Loaded(start, None)
  {
  }

  lemma BlankLine<O>(h: Handlers<O>, c: Values<O>, line: string, number: nat)
    requires Read(line).Blank?
    ensures LoadLine(h, c, line, number) == Loaded(c, None)
  {
  }

  /**
    The editor is undone by the loader. After a save, loading gives back both lists, unless
    an older line of the file that the editor does not recognise comes later and wins; and
    every other setting is what the old file said.
  */
  lemma SaveThenLoad<O>(h: Handlers<O>, start: Values<O>, file: Option<string>, inc: seq<string>, exc: seq<string>)
    requires Storable(h, inc) && Storable(h, exc)
    requires file.Some? ==> Load(h, start, Split(file.value, '\n')).problem.None?
    ensures var after := Load(h, start, Split(Saved(inc, exc, file), '\n'));
            if file.None? then after == Loaded(Values(inc, exc, start.other), None)
            else
              var lines := Split(file.value, '\n');
              after == Loaded(Values(Outcome(Include, lines, inc), Outcome(Exclude, lines, exc),
                                     Load(h, start, lines).config.other), None)
  {
    SavedSplits(inc, exc, file);
    if file.None? {
      GeneratedLoads(h, start, inc, exc);
    } else {
      UpdatedLoads(h, start, Split(file.value, '\n'), inc, exc);
    }
  }

  /** No line that sets the list in another spelling comes after every line the editor owns. */
  ghost predicate Undisturbed(f: Field, lines: seq<string>) {
    Owned(f, lines) ==>
      forall i | 0 <= i < |lines| && Sets(f, lines[i]) && !Owns(f, lines[i]) ::
        exists j :: i < j < |lines| && Owns(f, lines[j])
  }

  /** The new list wins exactly in undisturbed files; in any other file the last foreign line does. */
  lemma OutcomeIs(f: Field, lines: seq<string>, ps: seq<string>)
    ensures Undisturbed(f, lines) ==> Outcome(f, lines, ps) == ps
    ensures !Undisturbed(f, lines) ==>
              exists i :: 0 <= i < |lines| && Sets(f, lines[i]) && !Owns(f, lines[i])
                       && (forall j | i < j < |lines| :: !Sets(f, lines[j]))
                       && Outcome(f, lines, ps) == ListOf(Read(lines[i]).value)
  {
    hide Owns, Read, ListOf, Sets;
    if Owned(f, lines) {
      LastSetterIs(f, lines);
      var own :| 0 <= own < |lines| && Owns(f, lines[own]);
      OwnersSet(f, lines);
      var i := LastSetter(f, lines).value;
      if Owns(f, lines[i]) {
        assert Undisturbed(f, lines);
      } else {
        assert forall j | i < j < |lines| :: !Owns(f, lines[j]);
      }
    }
  }

  /** A line with a blank before the equals sign is not recognised by the editor, and wins if it comes last. */
  lemma SpacedKeyWins(previous: seq<string>, ps: seq<string>)
    ensures Outcome(Include, [Written(Include, previous), Key(Include) + " =b"], ps) == ["b"]
  {
    var key, spaced := Key(Include), Key(Include) + " =b";
    var lines := [Written(Include, previous), spaced];
    KeyIsPlain(Include);
    SpacedKeyReads();
    WrittenTrimmed(Include, previous);
    assert Owns(Include, lines[0]);
    hide Key, Owns, Read, Written;
    assert Sets(Include, lines[1]) && LastSetter(Include, lines) == Some(1);
  }

  lemma SpacedKeyReads()
    ensures var line := Key(Include) + " =b";
            !Owns(Include, line) && Read(line) == Setting(Key(Include), "b") && ListOf("b") == ["b"]
  {
    var key := Key(Include);
    var line := key + " =b";
    KeyIsPlain(Include);
    assert TrimSpace(line) == line;
    assert line[|key|] == ' ' && (key + "=")[|key|] == '=';
    assert line == (key + " ") + ['='] + "b";
    SplitOnceIs(key + " ", '=', "b");
    TrimRightTail(key, " ", IsSpace);
    assert TrimRight(" ", IsSpace) == "";
    assert TrimSpace(key + " ") == key;
    OneLetter();
  }

  lemma OneLetter()
    ensures Cleaned("b") == "b" && ListOf("b") == ["b"]
  {
    FindNone("b", '#');
    assert "b"[..1] == "b";
    assert Cleaned("b") == "b";
    SplitNone("b", ',');
    assert ["b"][..0] == [];
  }

  lemma OwnersSet(f: Field, lines: seq<string>)
    ensures forall i | 0 <= i < |lines| && Owns(f, lines[i]) :: Sets(f, lines[i])
  {
    forall i | 0 <= i < |lines| && Owns(f, lines[i]) ensures Sets(f, lines[i]) {
      hide Owns, Read;
      OwnedLineSets(f, lines[i]);
    }
  }

  // ------------------------------------------------------------ saving twice

  lemma RewriteIsIdempotent(inc: seq<string>, exc: seq<string>, line: string)
    ensures Rewrite(inc, exc, Rewrite(inc, exc, line)) == Rewrite(inc, exc, line)
  {
    hide Owns, Written;
    OneOwner(line);
    WrittenTrimmed(Include, inc);
    WrittenTrimmed(Exclude, exc);
    OneOwner(Written(Include, inc));
    OneOwner(Written(Exclude, exc));
  }

  lemma UpdatedIsIdempotent(inc: seq<string>, exc: seq<string>, lines: seq<string>)
    ensures Updated(inc, exc, Updated(inc, exc, lines)) == Updated(inc, exc, lines)
  {
    hide Owns, Written, Rewrite;
    var once := Updated(inc, exc, lines);
    WrittenStays(inc, exc);
    forall i | 0 <= i < |once| ensures Rewrite(inc, exc, once[i]) == once[i] {
      if i < |lines| {
        RewriteIsIdempotent(inc, exc, lines[i]);
      }
    }
    assert Rewritten(inc, exc, once) == once;
    UpdatedOwns(inc, exc, lines);
  }

  lemma WrittenStays(inc: seq<string>, exc: seq<string>)
    ensures Rewrite(inc, exc, Written(Include, inc)) == Written(Include, inc)
    ensures Rewrite(inc, exc, Written(Exclude, exc)) == Written(Exclude, exc)
  {
    hide Owns, Written;
    WrittenTrimmed(Include, inc);
    WrittenTrimmed(Exclude, exc);
    OneOwner(Written(Exclude, exc));
  }

  /** Saved lines hold a line for each list. */
  lemma UpdatedOwns(inc: seq<string>, exc: seq<string>, lines: seq<string>)
    ensures var once := Updated(inc, exc, lines);
            && Owned(Include, once) && Owned(Exclude, once)
            && Written(Include, inc) in once && Written(Exclude, exc) in once
  {
    hide Owns, Written;
    var once := Updated(inc, exc, lines);
    WrittenTrimmed(Include, inc);
    WrittenTrimmed(Exclude, exc);
    if Owned(Include, lines) {
      var i :| 0 <= i < |lines| && Owns(Include, lines[i]);
      assert once[i] == Written(Include, inc);
    } else {
      assert once[|lines|] == Written(Include, inc);
    }
    if Owned(Exclude, lines) {
      var i :| 0 <= i < |lines| && Owns(Exclude, lines[i]);
      OneOwner(lines[i]);
      assert once[i] == Written(Exclude, exc);
    } else {
      assert once[|once| - 1] == Written(Exclude, exc);
    }
  }

  lemma GeneratedStays(inc: seq<string>, exc: seq<string>)
    ensures Updated(inc, exc, Generated(inc, exc)) == Generated(inc, exc)
  {
    hide Owns, Written, Updated;
    GeneratedComment(Include);
    GeneratedComment(Exclude);
    FourLinesStay(inc, exc, "# CPU Manager Configuration", "");
  }

  lemma FourLinesStay(inc: seq<string>, exc: seq<string>, first: string, last: string)
    requires !Owns(Include, first) && !Owns(Exclude, first) && !Owns(Include, last) && !Owns(Exclude, last)
    ensures var g := [first, Written(Include, inc), Written(Exclude, exc), last]; Updated(inc, exc, g) == g
  {
    hide Owns, Written;
    var g := [first, Written(Include, inc), Written(Exclude, exc), last];
    WrittenStays(inc, exc);
    WrittenTrimmed(Include, inc);
    WrittenTrimmed(Exclude, exc);
    assert Owns(Include, g[1]) && Owns(Exclude, g[2]);
    assert Rewritten(inc, exc, g) == g;
  }

  function Newlines(s: string): nat {
    if s == "" then 0 else (if s[0] == '\n' then 1 else 0) + Newlines(s[1..])
  }

  function Total(parts: seq<string>): nat {
    if parts == [] then 0 else Newlines(parts[0]) + Total(parts[1..])
  }

  lemma {:induction false} NewlinesAppend(a: string, b: string)
    ensures Newlines(a + b) == Newlines(a) + Newlines(b)
  {
    if a == "" {
      assert a + b == b;
    } else {
      NewlinesAppend(a[1..], b);
      assert (a + b)[1..] == a[1..] + b;
    }
  }

  lemma {:induction false} NewlinesJoin(parts: seq<string>)
    requires parts != []
    ensures Newlines(Join(parts, "\n")) == Total(parts) + |parts| - 1
  {
    if |parts| > 1 {
      NewlinesJoin(parts[1..]);
      NewlinesAppend(parts[0] + "\n", Join(parts[1..], "\n"));
      NewlinesAppend(parts[0], "\n");
      assert Newlines("\n") == 1;
    }
  }

  lemma {:induction false} NewlinesSplit(s: string)
    ensures |Split(s, '\n')| == Newlines(s) + 1
    decreases |s|
  {
    var i := Find(s, '\n');
    NewlinesNone(s[..i]);
    if i == |s| {
      assert s[..i] == s;
    } else {
      NewlinesSplit(s[i + 1..]);
      assert s == s[..i] + ("\n" + s[i + 1..]);
      NewlinesAppend(s[..i], "\n" + s[i + 1..]);
    }
  }

  lemma {:induction false} NewlinesNone(s: string)
    ensures Newlines(s) == 0 <==> '\n' !in s
  {
    if s != "" {
      NewlinesNone(s[1..]);
      assert s == [s[0]] + s[1..];
    }
  }

  lemma {:induction false} TotalAtLeast(parts: seq<string>, p: string)
    requires p in parts
    ensures Total(parts) >= Newlines(p)
  {
    if parts[0] != p {
      TotalAtLeast(parts[1..], p);
    }
  }

  /** A pattern with a newline makes every later save longer than the one before. */
  lemma SavesGrow(inc: seq<string>, exc: seq<string>, content: string)
    requires !OneLine(inc) || !OneLine(exc)
    ensures Newlines(Saved(inc, exc, Some(content))) > Newlines(content)
  {
    hide OneLine, Written, Owns, Rewrite;
    var lines := Split(content, '\n');
    var next := Updated(inc, exc, lines);
    NewlinesSplit(content);
    NewlinesJoin(next);
    UpdatedOwns(inc, exc, lines);
    WrittenIsLine(Include, inc);
    WrittenIsLine(Exclude, exc);
    var w := if OneLine(inc) then Written(Exclude, exc) else Written(Include, inc);
    NewlinesNone(w);
    TotalAtLeast(next, w);
  }

  /** For any file, saving again changes nothing if and only if no pattern holds a newline. */
  lemma SavingTwiceIff(inc: seq<string>, exc: seq<string>, file: Option<string>)
    ensures Saved(inc, exc, Some(Saved(inc, exc, file))) == Saved(inc, exc, file) <==> OneLine(inc) && OneLine(exc)
  {
    hide OneLine, Updated, Generated;
    if OneLine(inc) && OneLine(exc) {
      SavedSplits(inc, exc, file);
      if file.None? {
        GeneratedStays(inc, exc);
      } else {
        UpdatedIsIdempotent(inc, exc, Split(file.value, '\n'));
      }
    } else {
      SavesGrow(inc, exc, Saved(inc, exc, file));
    }
  }

  /** Saving a pattern with a newline twice does not give the same file. */
  lemma NewlineGrows()
    ensures var once := Saved(["a\nb"], [], None); Saved(["a\nb"], [], Some(once)) != once
  {
    var p := "a\nb";
    assert p[1] == '\n' && Join([p], ",") == p;
    SavingTwiceIff([p], [], None);
  }
}
