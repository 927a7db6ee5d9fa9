/**
  The string operations of the standard library that the text stores are built on:
  splitting into lines, trimming, and printing and parsing decimal numbers.
*/
module Text {
  import opened Common

  // ------------------------------------------------------------ lines

  /** The position of the first `c`, or the length when there is none. */
  function Find(s: string, c: char): (r: nat)
    ensures r <= |s| && c !in s[..r] && (r < |s| ==> s[r] == c)
  {
    if s == "" || s[0] == c then 0 else 1 + Find(s[1..], c)
  }

  lemma {:induction false} FindIs(a: string, c: char, b: string)
    requires c !in a
    ensures Find(a + [c] + b, c) == |a|
  {
    if a == "" {
      assert a + [c] + b == [c] + b;
    } else {
      FindIs(a[1..], c, b);
      assert (a + [c] + b)[1..] == a[1..] + [c] + b;
    }
  }

  lemma {:induction false} Finds(s: string, c: char)
    requires c in s
    ensures Find(s, c) < |s|
  {
    if s[0] != c {
      Finds(s[1..], c);
    }
  }

  lemma {:induction false} FindNone(s: string, c: char)
    requires c !in s
    ensures Find(s, c) == |s|
  {
    if s != "" {
      FindNone(s[1..], c);
    }
  }

  function DropCR(line: string): string {
    if line != "" && line[|line| - 1] == '\r' then line[..|line| - 1] else line
  }

  /** The tokens of a line scanner: no newlines, no carriage return at the end of a line. */
  function ScanLines(s: string): seq<string>
    decreases |s|
  {
    var i := Find(s, '\n');
    if s == "" then []
    else if i == |s| then [DropCR(s)]
    else [DropCR(s[..i])] + ScanLines(s[i + 1..])
  }

  /** Everything written so far ends with a newline, so that an append starts a new line. */
  predicate Terminated(s: string) { s == "" || s[|s| - 1] == '\n' }

  predicate Plain(line: string) { '\n' !in line && (line != "" ==> line[|line| - 1] != '\r') }

  lemma ScanFirst(head: string, rest: string)
    requires '\n' !in head
    ensures ScanLines(head + "\n" + rest) == [DropCR(head)] + ScanLines(rest)
  {
    var s := head + "\n" + rest;
    FindIs(head, '\n', rest);
    assert s[..|head|] == head && s[|head| + 1..] == rest;
  }

  lemma FirstLine(s: string) returns (head: string, rest: string)
    requires s != "" && Terminated(s)
    ensures s == head + "\n" + rest && '\n' !in head && Terminated(rest)
  {
    assert s[|s| - 1] in s;
    Finds(s, '\n');
    head, rest := s[..Find(s, '\n')], s[Find(s, '\n') + 1..];
  }

  lemma {:induction false} ScanAppend(s: string, t: string)
    requires Terminated(s)
    ensures ScanLines(s + t) == ScanLines(s) + ScanLines(t)
    decreases |s|
  {
    hide ScanLines;
    if s == "" {
      assert s + t == t;
      ScanNothing();
    } else {
      var head, rest := FirstLine(s);
      ScanFirst(head, rest);
      ScanAppend(rest, t);
      Regrouped(s, head, rest, t);
    }
  }

  lemma ScanNothing()
    ensures ScanLines("") == []
  {
  }

  lemma Regrouped(s: string, head: string, rest: string, t: string)
    requires s == head + "\n" + rest && '\n' !in head
    ensures ScanLines(s + t) == [DropCR(head)] + ScanLines(rest + t)
  {
    hide ScanLines;
    ScanFirst(head, rest + t);
    assert s + t == head + "\n" + (rest + t);
  }

  lemma ScanOne(line: string)
    requires Plain(line)
    ensures ScanLines(line + "\n") == [line]
    ensures line != "" ==> ScanLines(line) == [line]
  {
    FindIs(line, '\n', "");
    assert line + ['\n'] + "" == line + "\n";
    assert (line + "\n")[..|line|] == line && (line + "\n")[|line| + 1..] == "";
  }

  /** A carriage return before the newline is dropped with it. */
  lemma ScanCRLF(line: string, rest: string)
    requires '\n' !in line
    ensures ScanLines(line + "\r\n" + rest) == [line] + ScanLines(rest)
  {
    hide ScanLines;
    ScanFirst(line + "\r", rest);
    assert line + "\r" + "\n" + rest == line + "\r\n" + rest;
    assert (line + "\r")[..|line|] == line;
  }

  /** `strings.Join`. */
  function Join(parts: seq<string>, sep: string): string {
    if parts == [] then ""
    else if |parts| == 1 then parts[0]
    else parts[0] + sep + Join(parts[1..], sep)
  }

  /** Lines written with a newline after each come back from the scanner; no lines come back as an empty one. */
  lemma {:induction false} ScanJoined(lines: seq<string>)
    requires forall l | l in lines :: Plain(l)
    ensures ScanLines(Join(lines, "\n") + "\n") == if lines == [] then [""] else lines
    decreases |lines|
  {
    hide ScanLines;
    if lines == [] {
      ScanOne("");
      assert Join(lines, "\n") + "\n" == "" + "\n";
    } else if |lines| == 1 {
      ScanOne(lines[0]);
    } else {
      assert Join(lines, "\n") + "\n" == (lines[0] + "\n") + (Join(lines[1..], "\n") + "\n");
      ScanAppend(lines[0] + "\n", Join(lines[1..], "\n") + "\n");
      ScanOne(lines[0]);
      ScanJoined(lines[1..]);
    }
  }

  /** The same without a newline at the end, as long as the last line is not empty. */
  lemma {:induction false} ScanJoinedOpen(lines: seq<string>)
    requires forall l | l in lines :: Plain(l) && l != ""
    ensures ScanLines(Join(lines, "\n")) == lines
    decreases |lines|
  {
    if lines == [] {
      ScanNothing();
    }
    hide ScanLines;
    if |lines| == 1 {
      ScanOne(lines[0]);
    } else if lines != [] {
      assert Join(lines, "\n") == (lines[0] + "\n") + Join(lines[1..], "\n");
      ScanAppend(lines[0] + "\n", Join(lines[1..], "\n"));
      ScanOne(lines[0]);
      ScanJoinedOpen(lines[1..]);
    }
  }

  /** `strings.SplitN(s, c, 2)`: the part before the first `c`, and the part after it if there is one. */
  function SplitOnce(s: string, c: char): (string, Option<string>) {
    var i := Find(s, c);
    if i == |s| then (s, None) else (s[..i], Some(s[i + 1..]))
  }

  lemma SplitOnceIs(a: string, c: char, b: string)
    requires c !in a
    ensures SplitOnce(a + [c] + b, c) == (a, Some(b))
  {
    FindIs(a, c, b);
    assert (a + [c] + b)[..|a|] == a && (a + [c] + b)[|a| + 1..] == b;
  }

  /** `strings.Split`. */
  function Split(s: string, c: char): (parts: seq<string>)
    ensures parts != [] && forall p | p in parts :: c !in p
    decreases |s|
  {
    var i := Find(s, c);
    if i == |s| then [s] else [s[..i]] + Split(s[i + 1..], c)
  }

  lemma SplitFirst(a: string, c: char, b: string)
    requires c !in a
    ensures Split(a + [c] + b, c) == [a] + Split(b, c)
  {
    FindIs(a, c, b);
    assert (a + [c] + b)[..|a|] == a && (a + [c] + b)[|a| + 1..] == b;
  }

  lemma SplitNone(a: string, c: char)
    requires c !in a
    ensures Split(a, c) == [a]
  {
    FindNone(a, c);
  }

  lemma {:induction false} SplitJoined(parts: seq<string>, c: char)
    requires parts != [] && forall p | p in parts :: c !in p
    ensures Split(Join(parts, [c]), c) == parts
    decreases |parts|
  {
    if |parts| == 1 {
      SplitNone(parts[0], c);
    } else {
      assert Join(parts, [c]) == parts[0] + [c] + Join(parts[1..], [c]);
      SplitFirst(parts[0], c, Join(parts[1..], [c]));
      SplitJoined(parts[1..], c);
      hide Split, Join;
      assert [parts[0]] + parts[1..] == parts;
    }
  }

  // ------------------------------------------------------------ trimming

  /** What `unicode.IsSpace` accepts. */
  predicate IsSpace(c: char) {
    var n := c as int;
    9 <= n <= 13 || n == 0x20 || n == 0x85 || n == 0xA0 || n == 0x1680 || 0x2000 <= n <= 0x200A
    || n == 0x2028 || n == 0x2029 || n == 0x202F || n == 0x205F || n == 0x3000
  }

  predicate IsQuote(c: char) { c == '"' || c == '\'' }

  function TrimLeft(s: string, cut: char -> bool): string {
    if s != "" && cut(s[0]) then TrimLeft(s[1..], cut) else s
  }

  function TrimRight(s: string, cut: char -> bool): string {
    if s != "" && cut(s[|s| - 1]) then TrimRight(s[..|s| - 1], cut) else s
  }

  function Trim(s: string, cut: char -> bool): string { TrimRight(TrimLeft(s, cut), cut) }

  function TrimSpace(s: string): string { Trim(s, IsSpace) }

  predicate Trimmed(s: string, cut: char -> bool) { s == "" || (!cut(s[0]) && !cut(s[|s| - 1])) }

  lemma TrimmedStays(s: string, cut: char -> bool)
    requires Trimmed(s, cut)
    ensures Trim(s, cut) == s
  {
  }

  // ------------------------------------------------------------ numbers

  const MAX_INT := 0x7FFF_FFFF_FFFF_FFFF

  predicate IsInt(n: int) { -MAX_INT - 1 <= n <= MAX_INT }

  predicate IsDigit(c: char) { '0' <= c <= '9' }

  function Digit(d: nat): (c: char)
    requires d < 10
    ensures IsDigit(c) && DigitValue(c) == d
  {
    ('0' as int + d) as char
  }

  function DigitValue(c: char): (d: nat)
    requires IsDigit(c)
    ensures d < 10
  {
    c as int - '0' as int
  }

  function Digits(n: nat): (s: string)
    ensures s != "" && forall c | c in s :: IsDigit(c)
  {
    if n < 10 then [Digit(n)] else Digits(n / 10) + [Digit(n % 10)]
  }

  /** `strconv.Itoa`. */
  function Itoa(n: int): (s: string)
    ensures s != "" && forall c | c in s :: IsDigit(c) || c == '-'
  {
    if n < 0 then "-" + Digits(-n) else Digits(n)
  }

  function Value(s: string): nat
    requires forall c | c in s :: IsDigit(c)
  {
    if s == "" then 0 else Value(s[..|s| - 1]) * 10 + DigitValue(s[|s| - 1])
  }

  /** `strconv.Atoi`: an optional sign, at least one digit, and a value that fits 64 bits. */
  function Atoi(s: string): Option<int> {
    var signed := s != "" && (s[0] == '-' || s[0] == '+');
    var digits := if signed then s[1..] else s;
    if digits == "" || exists c | c in digits :: !IsDigit(c) then None
    else
      var value: int := Value(digits);
      var n := if signed && s[0] == '-' then -value else value;
      if IsInt(n) then Some(n) else None
  }

  lemma {:induction false} DigitsValue(n: nat)
    ensures Value(Digits(n)) == n
  {
    if n >= 10 {
      DigitsValue(n / 10);
      assert Digits(n)[..|Digits(n)| - 1] == Digits(n / 10);
    }
  }

  /** A string of digits, signed or not, is read as its value. */
  lemma AtoiDigits(digits: string, negative: bool)
    requires digits != "" && forall c | c in digits :: IsDigit(c)
    ensures var n: int := Value(digits);
            var signed := if negative then -n else n;
            Atoi(if negative then "-" + digits else digits) == if IsInt(signed) then Some(signed) else None
  {
    hide Value;
    assert digits[0] in digits;
    assert ("-" + digits)[1..] == digits;
  }

  lemma AtoiItoa(n: int)
    requires IsInt(n)
    ensures Atoi(Itoa(n)) == Some(n)
  {
    hide Atoi, Digits, Value;
    var m := if n < 0 then -n else n;
    DigitsValue(m);
    AtoiDigits(Digits(m), n < 0);
  }

  lemma ItoaIsPlain(n: int)
    ensures Plain(Itoa(n)) && TrimSpace(Itoa(n)) == Itoa(n)
  {
    var s := Itoa(n);
    assert s[0] in s && s[|s| - 1] in s;
  }
}
