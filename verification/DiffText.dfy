/** Unified diff text: the hunk parser, the hunk printer and the file header that
    is carried from one to the other. */
module DiffText {
  import opened Basics
  import opened Decimal

  datatype LineType = Context | Added | Deleted

  datatype HunkLine = HunkLine(kind: LineType, content: string)

  datatype Hunk = Hunk(oldStart: int, oldCount: int, newStart: int, newCount: int, lines: seq<HunkLine>)

  // ---------- Lines ----------

  /** One more character in front of the lines that follow it. */
  function Attach(c: char, lines: seq<string>): seq<string>
    requires lines != []
  {
    if c == '\n' then [""] + lines else [[c] + lines[0]] + lines[1..]
  }

  /** `strings.Split(s, "\n")`. */
  function SplitLines(s: string): (lines: seq<string>)
    ensures lines != []
    ensures forall l :: l in lines ==> '\n' !in l
  {
    if s == "" then [""] else Attach(s[0], SplitLines(s[1..]))
  }

  lemma AttachAppend(c: char, a: seq<string>, b: seq<string>)
    requires a != []
    ensures Attach(c, a + b) == Attach(c, a) + b
  {
    assert (a + b)[0] == a[0] && (a + b)[1..] == a[1..] + b;
  }

  lemma {:induction false} SplitAtNewline(a: string, b: string)
    ensures SplitLines(a + "\n" + b) == SplitLines(a) + SplitLines(b)
  {
    var s := a + "\n" + b;
    if a == "" {
      assert s[1..] == b;
    } else {
      SplitAtNewline(a[1..], b);
      assert s[0] == a[0] && s[1..] == a[1..] + "\n" + b;
      AttachAppend(a[0], SplitLines(a[1..]), SplitLines(b));
    }
  }

  lemma {:induction false} SplitOneLine(a: string)
    requires '\n' !in a
    ensures SplitLines(a) == [a]
  {
    if a != "" {
      SplitOneLine(a[1..]);
      assert a == [a[0]] + a[1..] && a[0] != '\n';
    }
  }

  /** Every line followed by a newline. */
  function Text(lines: seq<string>): string {
    if lines == [] then "" else lines[0] + "\n" + Text(lines[1..])
  }

  lemma {:induction false} SplitText(lines: seq<string>)
    requires forall l :: l in lines ==> '\n' !in l
    ensures SplitLines(Text(lines)) == lines + [""]
  {
    if lines != [] {
      SplitText(lines[1..]);
      SplitAtNewline(lines[0], Text(lines[1..]));
      SplitOneLine(lines[0]);
    }
  }

  lemma {:induction false} TextAppend(a: seq<string>, b: seq<string>)
    ensures Text(a + b) == Text(a) + Text(b)
  {
    if a == [] {
      assert a + b == b;
    } else {
      TextAppend(a[1..], b);
      assert (a + b)[1..] == a[1..] + b;
    }
  }

  // ---------- Hunk headers ----------

  /** The four numerals of a hunk header; a count left out is empty. */
  datatype Header = Header(oldStart: string, oldCount: string, newStart: string, newCount: string)

  function CountPart(count: string): string {
    if count == "" then "" else "," + count
  }

  /** The header line the regular expression describes, up to whatever follows it. */
  ghost predicate HeaderForm(line: string, h: Header) {
    && h.oldStart != "" && AllDigits(h.oldStart) && AllDigits(h.oldCount)
    && h.newStart != "" && AllDigits(h.newStart) && AllDigits(h.newCount)
    && "@@ -" + h.oldStart + CountPart(h.oldCount) + " +" + h.newStart + CountPart(h.newCount) + " @@" <= line
  }

  /** A numeral, an optional count, and the rest of the line. */
  function ReadRange(s: string): Option<(string, string, string)> {
    var n := Run(s);
    if n == 0 then None
    else
      var rest := s[n..];
      if "," <= rest && Run(rest[1..]) > 0 then
        var m := Run(rest[1..]);
        Some((s[..n], rest[1..][..m], rest[1..][m..]))
      else Some((s[..n], "", rest))
  }

  function MatchHeader(line: string): Option<Header> {
    if !("@@ -" <= line) then None
    else
      match ReadRange(line[4..])
      case None => None
      case Some((oldStart, oldCount, rest)) =>
        if !(" +" <= rest) then None
        else
          match ReadRange(rest[2..])
          case None => None
          case Some((newStart, newCount, tail)) =>
            if " @@" <= tail then Some(Header(oldStart, oldCount, newStart, newCount)) else None
  }

  lemma ReadRangeSound(s: string)
    requires ReadRange(s).Some?
    ensures var (a, b, rest) := ReadRange(s).value;
            a != "" && AllDigits(a) && AllDigits(b) && s == a + CountPart(b) + rest
  {
    var n := Run(s);
    var rest := s[n..];
    assert s == s[..n] + rest;
    if "," <= rest && Run(rest[1..]) > 0 {
      var t, m := rest[1..], Run(rest[1..]);
      assert t == t[..m] + t[m..] && rest == "," + t;
      assert s == s[..n] + ("," + t[..m]) + t[m..];
    }
  }

  /** A range followed by a blank reads back as itself. */
  lemma ReadRangeComplete(a: string, b: string, rest: string)
    requires a != "" && AllDigits(a) && AllDigits(b) && " " <= rest
    ensures ReadRange(a + CountPart(b) + rest) == Some((a, b, rest))
  {
    hide Run, ReadRange;
    if b == "" {
      RangeAlone(a, rest);
      assert a + "" + rest == a + rest;
    } else {
      RangeCounted(a, b, rest);
      assert a + ("," + b) + rest == a + ("," + (b + rest));
    }
  }

  lemma RangeAlone(a: string, rest: string)
    requires a != "" && AllDigits(a) && " " <= rest
    ensures ReadRange(a + rest) == Some((a, "", rest))
  {
    RunDelimits(a, rest);
    hide Run;
    assert (a + rest)[..|a|] == a && (a + rest)[|a|..] == rest;
  }

  lemma RangeCounted(a: string, b: string, rest: string)
    requires a != "" && b != "" && AllDigits(a) && AllDigits(b) && " " <= rest
    ensures ReadRange(a + ("," + (b + rest))) == Some((a, b, rest))
  {
    var after := "," + (b + rest);
    RunDelimits(a, after);
    RunDelimits(b, rest);
    hide Run;
    assert (a + after)[..|a|] == a && (a + after)[|a|..] == after;
    assert after[1..] == b + rest && (b + rest)[..|b|] == b && (b + rest)[|b|..] == rest;
  }

  /** The scanner accepts exactly the lines of the header form, with its numerals. */
  lemma MatchHeaderExact(line: string, h: Header)
    ensures MatchHeader(line) == Some(h) <==> HeaderForm(line, h)
  {
    if MatchHeader(line) == Some(h) {
      MatchHeaderSound(line, h);
    }
    if HeaderForm(line, h) {
      MatchHeaderComplete(line, h);
    }
  }

  lemma MatchHeaderSound(line: string, h: Header)
    requires MatchHeader(line) == Some(h)
    ensures HeaderForm(line, h)
  {
    hide ReadRange;
    var body := line[4..];
    assert line == "@@ -" + body;
    ReadRangeSound(body);
    var rest := ReadRange(body).value.2;
    ReadRangeSound(rest[2..]);
    assert rest == " +" + rest[2..];
    var tail := ReadRange(rest[2..]).value.2;
    assert tail == " @@" + tail[3..];
    HeaderJoins(h.oldStart, CountPart(h.oldCount), h.newStart, CountPart(h.newCount), tail[3..]);
  }

  lemma HeaderJoins(a: string, b: string, c: string, d: string, tail: string)
    ensures "@@ -" + (a + b + (" +" + (c + d + (" @@" + tail)))) == ("@@ -" + a + b + " +" + c + d + " @@") + tail
  {
    var second := c + d + (" @@" + tail);
    assert second == (c + d + " @@") + tail;
    assert a + b + (" +" + second) == (a + b + " +" + c + d + " @@") + tail;
  }

  lemma MatchHeaderComplete(line: string, h: Header)
    requires HeaderForm(line, h)
    ensures MatchHeader(line) == Some(h)
  {
    hide ReadRange, CountPart;
    var front := "@@ -" + h.oldStart + CountPart(h.oldCount) + " +" + h.newStart + CountPart(h.newCount) + " @@";
    var tail := line[|front|..];
    assert line == front + tail;
    var second := h.newStart + CountPart(h.newCount) + (" @@" + tail);
    var first := h.oldStart + CountPart(h.oldCount) + (" +" + second);
    assert line == "@@ -" + first;
    assert line[4..] == first;
    ReadRangeComplete(h.oldStart, h.oldCount, " +" + second);
    assert (" +" + second)[2..] == second;
    ReadRangeComplete(h.newStart, h.newCount, " @@" + tail);
  }

  // ---------- Parsing ----------

  const NO_NEWLINE := "\\ No newline at end of file"
  const FILE_MARK := "diff --git "

  /** The finished hunks, the hunk being read, and whether another file began. */
  datatype Parser = Parser(done: seq<Hunk>, current: Option<Hunk>, stopped: bool)

  const START := Parser([], None, false)

  function Flush(p: Parser): seq<Hunk> {
    p.done + if p.current.Some? then [p.current.value] else []
  }

  function HeaderHunk(h: Header): Hunk
    requires AllDigits(h.oldStart) && AllDigits(h.oldCount) && AllDigits(h.newStart) && AllDigits(h.newCount)
  {
    Hunk(Atoi(h.oldStart), if h.oldCount == "" then 1 else Atoi(h.oldCount),
         Atoi(h.newStart), if h.newCount == "" then 1 else Atoi(h.newCount), [])
  }

  function ReadLine(line: string): HunkLine {
    if "+" <= line then HunkLine(Added, line[1..])
    else if "-" <= line then HunkLine(Deleted, line[1..])
    else if " " <= line then HunkLine(Context, line[1..])
    else HunkLine(Context, line)
  }

  function Step(p: Parser, line: string): Parser {
    if p.stopped then p
    else
      match MatchHeader(line)
      case Some(h) =>
        MatchHeaderExact(line, h);
        Parser(Flush(p), Some(HeaderHunk(h)), false)
      case None =>
        if p.current.None? || line == "" || NO_NEWLINE <= line then p
        else if FILE_MARK <= line then p.(stopped := true)
        else p.(current := Some(p.current.value.(lines := p.current.value.lines + [ReadLine(line)])))
  }

  function Steps(p: Parser, lines: seq<string>): Parser
    decreases lines
  {
    if lines == [] then p else Steps(Step(p, lines[0]), lines[1..])
  }

  /** The hunks of a diff text. */
  function Hunks(text: string): seq<Hunk> {
    Flush(Steps(START, SplitLines(text)))
  }

  lemma {:induction false} StepsAppend(p: Parser, a: seq<string>, b: seq<string>)
    ensures Steps(p, a + b) == Steps(Steps(p, a), b)
    decreases a
  {
    hide Step;
    if a == [] {
      assert a + b == b;
    } else {
      StepsAppend(Step(p, a[0]), a[1..], b);
      assert (a + b)[1..] == a[1..] + b;
    }
  }

  /** `ParseHunks`, line by line. */
  method ParseHunks(text: string) returns (hunks: seq<Hunk>)
    ensures hunks == Hunks(text)
  {
    hide Steps, MatchHeader, ReadLine, HeaderHunk;
    var lines := SplitLines(text);
    hunks := [];
    var current: Option<Hunk> := None;
    ghost var p := START;
    StepsNone(START);
    for i := 0 to |lines|
      invariant p == Parser(hunks, current, false) && p == Steps(START, lines[..i])
    {
      StepsOne(START, lines, i);
      var header := MatchHeader(lines[i]);
      p := Step(p, lines[i]);
      if header.Some? {
        MatchHeaderExact(lines[i], header.value);
        if current.Some? {
          hunks := hunks + [current.value];
        }
        current := Some(HeaderHunk(header.value));
      } else if current.None? || lines[i] == "" || NO_NEWLINE <= lines[i] {
      } else if FILE_MARK <= lines[i] {
        StepsStopped(p, lines[i + 1..]);
        assert lines == lines[..i + 1] + lines[i + 1..];
        StepsAppend(START, lines[..i + 1], lines[i + 1..]);
        break;
      } else {
        current := Some(current.value.(lines := current.value.lines + [ReadLine(lines[i])]));
      }
    }
    assert lines[..|lines|] == lines;
    if current.Some? {
      hunks := hunks + [current.value];
    }
  }

  lemma StepsNone(p: Parser)
    ensures Steps(p, []) == p
  {
  }

  lemma StepsOne(p: Parser, lines: seq<string>, i: nat)
    requires i < |lines|
    ensures Steps(p, lines[..i + 1]) == Step(Steps(p, lines[..i]), lines[i])
  {
    assert lines[..i + 1] == lines[..i] + [lines[i]];
    StepsAppend(p, lines[..i], [lines[i]]);
    assert [lines[i]][1..] == [];
  }

  lemma {:induction false} StepsStopped(p: Parser, lines: seq<string>)
    requires p.stopped
    ensures Steps(p, lines) == p
    decreases lines
  {
    if lines != [] {
      StepsStopped(p, lines[1..]);
    }
  }

  // ---------- Printing ----------

  function Mark(kind: LineType): string {
    match kind
    case Added => "+"
    case Deleted => "-"
    case Context => " "
  }

  function WriteLine(l: HunkLine): string {
    Mark(l.kind) + l.content
  }

  function WriteLines(lines: seq<HunkLine>): seq<string> {
    if lines == [] then [] else [WriteLine(lines[0])] + WriteLines(lines[1..])
  }

  function WriteHeader(h: Hunk): string {
    "@@ -" + PrintInt(h.oldStart) + "," + PrintInt(h.oldCount) + " +" + PrintInt(h.newStart) + ","
    + PrintInt(h.newCount) + " @@"
  }

  function HunkLines(h: Hunk): seq<string> {
    [WriteHeader(h)] + WriteLines(h.lines)
  }

  /** `renderHunks` as text. */
  function Rendered(hunks: seq<Hunk>): string {
    if hunks == [] then "" else Text(HunkLines(hunks[0])) + Rendered(hunks[1..])
  }

  lemma Regroup(a: string, b: string, c: string)
    ensures a + (b + c) == a + b + c
  {
  }

  lemma {:induction false} RenderedAppend(a: seq<Hunk>, b: seq<Hunk>)
    ensures Rendered(a + b) == Rendered(a) + Rendered(b)
  {
    hide HunkLines, Text;
    if a == [] {
      assert a + b == b;
    } else {
      RenderedAppend(a[1..], b);
      assert (a + b)[1..] == a[1..] + b;
      Regroup(Text(HunkLines(a[0])), Rendered(a[1..]), Rendered(b));
    }
  }

  /** `renderHunks`, writing one line at a time. */
  method RenderHunks(hunks: seq<Hunk>) returns (text: string)
    ensures text == Rendered(hunks)
  {
    hide WriteHeader, WriteLine, Rendered, Text, WriteLines;
    text := "";
    RenderedNone();
    for i := 0 to |hunks|
      invariant text == Rendered(hunks[..i])
    {
      var before := text;
      var lines := hunks[i].lines;
      text := text + WriteHeader(hunks[i]) + "\n";
      TextOne(WriteHeader(hunks[i]));
      WriteNone();
      assert lines[..0] == [] && [WriteHeader(hunks[i])] + [] == [WriteHeader(hunks[i])];
      for j := 0 to |lines|
        invariant text == before + Text([WriteHeader(hunks[i])] + WriteLines(lines[..j]))
      {
        text := text + WriteLine(lines[j]) + "\n";
        WriteOne(lines, j);
        TextOne(WriteLine(lines[j]));
        TextAppend([WriteHeader(hunks[i])] + WriteLines(lines[..j]), [WriteLine(lines[j])]);
        assert [WriteHeader(hunks[i])] + WriteLines(lines[..j + 1])
            == [WriteHeader(hunks[i])] + WriteLines(lines[..j]) + [WriteLine(lines[j])];
      }
      assert lines[..|lines|] == lines;
      RenderedOne(hunks, i);
    }
    assert hunks[..|hunks|] == hunks;
  }

  lemma RenderedNone()
    ensures Rendered([]) == ""
  {
  }

  lemma WriteNone()
    ensures WriteLines([]) == []
  {
  }

  lemma TextOne(line: string)
    ensures Text([line]) == line + "\n"
  {
    assert [line][1..] == [];
  }

  lemma {:induction false} WriteAppend(a: seq<HunkLine>, b: seq<HunkLine>)
    ensures WriteLines(a + b) == WriteLines(a) + WriteLines(b)
  {
    if a == [] {
      assert a + b == b;
    } else {
      WriteAppend(a[1..], b);
      assert (a + b)[1..] == a[1..] + b;
    }
  }

  lemma WriteOne(lines: seq<HunkLine>, j: nat)
    requires j < |lines|
    ensures WriteLines(lines[..j + 1]) == WriteLines(lines[..j]) + [WriteLine(lines[j])]
  {
    assert lines[..j + 1] == lines[..j] + [lines[j]];
    WriteAppend(lines[..j], [lines[j]]);
    assert [lines[j]][1..] == [];
  }

  lemma RenderedOne(hunks: seq<Hunk>, i: nat)
    requires i < |hunks|
    ensures Rendered(hunks[..i + 1]) == Rendered(hunks[..i]) + Text(HunkLines(hunks[i]))
  {
    assert hunks[..i + 1] == hunks[..i] + [hunks[i]];
    RenderedAppend(hunks[..i], [hunks[i]]);
    assert [hunks[i]][1..] == [];
  }

  // ---------- What lines mean ----------

  /** A line that only says that a newline is missing changes no hunk and no coordinate,
      wherever it stands. */
  lemma MissingNewlineIsSkipped(a: seq<string>, line: string, b: seq<string>)
    requires "\\ No newline at end of file" <= line
    ensures Flush(Steps(START, a + [line] + b)) == Flush(Steps(START, a + b))
  {
    hide Steps;
    StepsAppend(START, a + [line], b);
    StepsAppend(START, a, [line]);
    StepsAppend(START, a, b);
    OneStep(Steps(START, a), line);
    NoHeader(line);
  }

  /** Behind the mark of another file nothing is read, once a hunk has begun. */
  lemma OtherFileEnds(a: seq<string>, line: string, b: seq<string>)
    requires "diff --git " <= line && Flush(Steps(START, a)) != []
    ensures Flush(Steps(START, a + [line] + b)) == Flush(Steps(START, a))
  {
    hide Steps;
    StepsAppend(START, a + [line], b);
    StepsAppend(START, a, [line]);
    OneStep(Steps(START, a), line);
    NoHeader(line);
    BegunHasCurrent(START, a);
    StepsStopped(Step(Steps(START, a), line), b);
  }

  /** What precedes the first header is not read. */
  lemma {:induction false} PreambleIsSkipped(a: seq<string>, b: seq<string>)
    requires forall l :: l in a ==> MatchHeader(l) == None
    ensures Flush(Steps(START, a + b)) == Flush(Steps(START, b))
  {
    hide MatchHeader;
    if a == [] {
      assert a + b == b;
    } else {
      assert (a + b)[1..] == a[1..] + b;
      PreambleIsSkipped(a[1..], b);
    }
  }

  /** Behind a header, a line is read by its first character; only an empty line is none. */
  lemma LineIsRead(a: seq<string>, line: string)
    requires Steps(START, a).current.Some? && !Steps(START, a).stopped && line != ""
    requires line[0] != '@' && !("\\ No newline at end of file" <= line) && !("diff --git " <= line)
    ensures var before, after := Flush(Steps(START, a)), Flush(Steps(START, a + [line]));
      var n := |before| - 1;
      && n >= 0 && |after| == n + 1 && after[..n] == before[..n]
      && after[n] == before[n].(lines := before[n].lines
           + [if line[0] == '+' then HunkLine(Added, line[1..])
              else if line[0] == '-' then HunkLine(Deleted, line[1..])
              else if line[0] == ' ' then HunkLine(Context, line[1..])
              else HunkLine(Context, line)])
  {
    hide Steps;
    StepsAppend(START, a, [line]);
    OneStep(Steps(START, a), line);
    NoHeader(line);
  }

  /** A header begins a hunk; a count left out is 1. */
  lemma HeaderIsRead(a: seq<string>, oldStart: nat, oldCount: Option<nat>, newStart: nat, newCount: Option<nat>,
                     rest: string)
    requires !Steps(START, a).stopped
    ensures var line := "@@ -" + Print(oldStart) + CountText(oldCount) + " +" + Print(newStart) + CountText(newCount)
                        + " @@" + rest;
      Flush(Steps(START, a + [line])) == Flush(Steps(START, a))
        + [Hunk(Min(oldStart, MAX_INT), if oldCount.None? then 1 else Min(oldCount.value, MAX_INT),
                Min(newStart, MAX_INT), if newCount.None? then 1 else Min(newCount.value, MAX_INT), [])]
  {
    hide Steps, Print, MatchHeader;
    var m := Header(Print(oldStart), if oldCount.None? then "" else Print(oldCount.value), Print(newStart),
                    if newCount.None? then "" else Print(newCount.value));
    var form := "@@ -" + Print(oldStart) + CountText(oldCount) + " +" + Print(newStart) + CountText(newCount) + " @@";
    var line := form + rest;
    StepsAppend(START, a, [line]);
    OneStep(Steps(START, a), line);
    assert form <= line && HeaderForm(line, m);
    MatchHeaderExact(line, m);
    ValueOfPrint(oldStart);
    ValueOfPrint(newStart);
    if oldCount.Some? {
      ValueOfPrint(oldCount.value);
    }
    if newCount.Some? {
      ValueOfPrint(newCount.value);
    }
  }

  function CountText(count: Option<nat>): string {
    if count.None? then "" else "," + Print(count.value)
  }

  lemma OneStep(p: Parser, line: string)
    ensures Steps(p, [line]) == Step(p, line)
  {
    StepsOne(p, [line], 0);
    StepsNone(p);
    assert [line][..1] == [line] && [line][..0] == [];
  }

  lemma NoHeader(line: string)
    requires line == "" || line[0] != '@'
    ensures MatchHeader(line) == None
  {}

  /** Once there is a hunk, one is being read. */
  lemma {:induction false} BegunHasCurrent(p: Parser, lines: seq<string>)
    requires p.current.None? ==> p.done == []
    ensures var q := Steps(p, lines); q.current.None? ==> q.done == []
    decreases lines
  {
    hide MatchHeader, HeaderHunk, ReadLine;
    if lines != [] {
      BegunHasCurrent(Step(p, lines[0]), lines[1..]);
    }
  }

  // ---------- Parsing undoes printing ----------

  predicate InInt(n: int) {
    0 <= n <= MAX_INT
  }

  /** What the printer can express. */
  ghost predicate Writable(h: Hunk) {
    && h.oldStart >= 0 && h.oldCount >= 0 && h.newStart >= 0 && h.newCount >= 0
    && forall l :: l in h.lines ==> '\n' !in l.content
  }

  /** What the parser can read back, too. */
  ghost predicate Printable(h: Hunk) {
    && InInt(h.oldStart) && InInt(h.oldCount) && InInt(h.newStart) && InInt(h.newCount)
    && Writable(h)
  }

  /** A hunk as the parser reads its numbers. */
  function Clamped(h: Hunk): Hunk {
    Hunk(Min(h.oldStart, MAX_INT), Min(h.oldCount, MAX_INT), Min(h.newStart, MAX_INT), Min(h.newCount, MAX_INT),
         h.lines)
  }

  function AllClamped(hunks: seq<Hunk>): seq<Hunk> {
    if hunks == [] then [] else [Clamped(hunks[0])] + AllClamped(hunks[1..])
  }

  lemma {:induction false} ClampedChanges(hunks: seq<Hunk>)
    requires forall h :: h in hunks ==> Writable(h)
    ensures AllClamped(hunks) == hunks <==> forall h :: h in hunks ==> Printable(h)
  {
    if hunks != [] {
      ClampedChanges(hunks[1..]);
      assert hunks == [hunks[0]] + hunks[1..];
      assert AllClamped(hunks)[1..] == AllClamped(hunks[1..]);
      assert hunks[0] in hunks;
      assert Clamped(hunks[0]) == hunks[0] <==> Printable(hunks[0]);
    }
  }

  lemma HeaderReadsBack(h: Hunk)
    requires Writable(h)
    ensures MatchHeader(WriteHeader(h)).Some?
    ensures var m := MatchHeader(WriteHeader(h)).value;
            HeaderForm(WriteHeader(h), m) && HeaderHunk(m) == Clamped(h).(lines := [])
  {
    hide MatchHeader;
    var m := Header(Print(h.oldStart), Print(h.oldCount), Print(h.newStart), Print(h.newCount));
    assert HeaderForm(WriteHeader(h), m);
    MatchHeaderExact(WriteHeader(h), m);
    ValueOfPrint(h.oldStart);
    ValueOfPrint(h.oldCount);
    ValueOfPrint(h.newStart);
    ValueOfPrint(h.newCount);
  }

  /** The parser after more lines of its current hunk. */
  function Grow(p: Parser, lines: seq<HunkLine>): Parser
    requires p.current.Some?
  {
    p.(current := Some(p.current.value.(lines := p.current.value.lines + lines)))
  }

  lemma LineReadsBack(p: Parser, l: HunkLine)
    requires !p.stopped && p.current.Some?
    ensures Step(p, WriteLine(l)) == Grow(p, [l])
  {
    var line := WriteLine(l);
    assert line[0] in {'+', '-', ' '};
    assert MatchHeader(line) == None by {
      assert "@@ -"[0] == '@';
    }
    assert NO_NEWLINE[0] == '\\' && FILE_MARK[0] == 'd';
    assert line[1..] == l.content;
  }

  lemma {:induction false} LinesReadBack(p: Parser, lines: seq<HunkLine>)
    requires !p.stopped && p.current.Some?
    ensures Steps(p, WriteLines(lines)) == Grow(p, lines)
    decreases lines
  {
    hide Step, WriteLine;
    if lines != [] {
      LineReadsBack(p, lines[0]);
      LinesReadBack(Grow(p, [lines[0]]), lines[1..]);
      assert WriteLines(lines)[1..] == WriteLines(lines[1..]);
      GrowTwice(p, [lines[0]], lines[1..]);
      assert [lines[0]] + lines[1..] == lines;
    } else {
      assert p.current.value.lines + [] == p.current.value.lines;
    }
  }

  lemma GrowTwice(p: Parser, a: seq<HunkLine>, b: seq<HunkLine>)
    requires p.current.Some?
    ensures Grow(Grow(p, a), b) == Grow(p, a + b)
  {
    assert p.current.value.lines + a + b == p.current.value.lines + (a + b);
  }

  lemma HunkReadsBack(p: Parser, h: Hunk)
    requires !p.stopped && Writable(h)
    ensures Steps(p, HunkLines(h)) == Parser(Flush(p), Some(Clamped(h)), false)
  {
    HeaderReadsBack(h);
    var q := Step(p, WriteHeader(h));
    assert HunkLines(h)[1..] == WriteLines(h.lines);
    LinesReadBack(q, h.lines);
    assert [] + h.lines == h.lines;
  }

  function AllLines(hunks: seq<Hunk>): seq<string> {
    if hunks == [] then [] else HunkLines(hunks[0]) + AllLines(hunks[1..])
  }

  lemma {:induction false} RenderedIsText(hunks: seq<Hunk>)
    ensures Rendered(hunks) == Text(AllLines(hunks))
  {
    hide HunkLines;
    if hunks != [] {
      RenderedIsText(hunks[1..]);
      TextAppend(HunkLines(hunks[0]), AllLines(hunks[1..]));
    }
  }

  lemma {:induction false} WrittenNewlineFree(lines: seq<HunkLine>)
    requires forall l :: l in lines ==> '\n' !in l.content
    ensures forall l :: l in WriteLines(lines) ==> '\n' !in l
  {
    if lines != [] {
      WrittenNewlineFree(lines[1..]);
    }
  }

  lemma HeaderNewlineFree(h: Hunk)
    requires Writable(h)
    ensures '\n' !in WriteHeader(h)
  {
    forall n: nat ensures '\n' !in Print(n) {
      assert AllDigits(Print(n));
    }
  }

  lemma {:induction false} AllLinesNewlineFree(hunks: seq<Hunk>)
    requires forall h :: h in hunks ==> Writable(h)
    ensures forall l :: l in AllLines(hunks) ==> '\n' !in l
  {
    hide WriteHeader, WriteLines;
    if hunks != [] {
      AllLinesNewlineFree(hunks[1..]);
      HeaderNewlineFree(hunks[0]);
      WrittenNewlineFree(hunks[0].lines);
    }
  }

  lemma {:induction false} HunksReadBack(p: Parser, hunks: seq<Hunk>)
    requires !p.stopped && forall h :: h in hunks ==> Writable(h)
    ensures var q := Steps(p, AllLines(hunks)); !q.stopped && Flush(q) == Flush(p) + AllClamped(hunks)
    decreases hunks
  {
    hide HunkLines, Step;
    if hunks != [] {
      StepsAppend(p, HunkLines(hunks[0]), AllLines(hunks[1..]));
      HunkReadsBack(p, hunks[0]);
      var q := Parser(Flush(p), Some(Clamped(hunks[0])), false);
      HunksReadBack(q, hunks[1..]);
      assert Flush(p) + [Clamped(hunks[0])] + AllClamped(hunks[1..]) == Flush(p) + AllClamped(hunks);
    }
  }

  /** Reading printed hunks adds exactly them to whatever was read before,
      if and only if their numbers fit an `int`. */
  lemma PrintedReadsBack(p: Parser, hunks: seq<Hunk>)
    requires !p.stopped && forall h :: h in hunks ==> Writable(h)
    ensures Flush(Steps(p, SplitLines(Rendered(hunks)))) == Flush(p) + AllClamped(hunks)
    ensures Flush(Steps(p, SplitLines(Rendered(hunks)))) == Flush(p) + hunks
            <==> forall h :: h in hunks ==> Printable(h)
  {
    hide AllLines, Rendered, Text, SplitLines, Steps, Writable, Printable, AllClamped;
    ClampedChanges(hunks);
    RenderedIsText(hunks);
    AllLinesNewlineFree(hunks);
    SplitText(AllLines(hunks));
    StepsAppend(p, AllLines(hunks), [""]);
    HunksReadBack(p, hunks);
    var q := Steps(p, AllLines(hunks));
    StepsOne(q, [""], 0);
    StepsNone(q);
    assert [""][..0] == [] && [""][..1] == [""];
    assert Step(q, "") == q;
    var all := Flush(p) + AllClamped(hunks);
    assert all == Flush(p) + hunks <==> all[|Flush(p)|..] == (Flush(p) + hunks)[|Flush(p)|..];
  }

  // ---------- The file header ----------

  /** `strings.HasPrefix(s, "@@")`. */
  predicate AtHunk(s: string) {
    |s| >= 2 && s[0] == '@' && s[1] == '@'
  }

  /** A line that starts like a hunk header follows at once. */
  predicate Marked(s: string) {
    s != "" && s[0] == '\n' && AtHunk(s[1..])
  }

  /** `strings.Index(s, "\n@@")`. */
  function MarkerIndex(s: string): (r: Option<nat>)
    ensures r.Some? ==> r.value < |s| && Marked(s[r.value..])
  {
    if s == "" then None
    else if Marked(s) then Some(0)
    else
      match MarkerIndex(s[1..])
      case None => None
      case Some(i) =>
        assert s[1..][i..] == s[i + 1..];
        Some(i + 1)
  }

  function DiffHeader(raw: string): string {
    if AtHunk(raw) then ""
    else
      match MarkerIndex(raw)
      case Some(i) => raw[..i + 1]
      case None => raw
  }

  /** The header is all that stands before the first line that begins with "@@". */
  lemma HeaderIsFront(raw: string)
    ensures var n := |DiffHeader(raw)|;
      && n <= |raw| && DiffHeader(raw) == raw[..n] && (n < |raw| ==> "@@" <= raw[n..])
      && (0 < n < |raw| ==> raw[n - 1] == '\n') && (n > 0 ==> !("@@" <= raw))
      && forall i :: 0 <= i && i + 1 < n ==> !("\n@@" <= raw[i..])
  {
    if !AtHunk(raw) {
      FirstMarker(raw);
      if MarkerIndex(raw).Some? {
        var i := MarkerIndex(raw).value;
        assert raw[i..][1..] == raw[i + 1..];
      }
    }
  }

  lemma {:induction false} FirstMarker(s: string)
    ensures var n := if MarkerIndex(s).Some? then MarkerIndex(s).value else |s|;
      forall i :: 0 <= i < n ==> !("\n@@" <= s[i..])
  {
    if s != "" && !Marked(s) {
      FirstMarker(s[1..]);
      var n := if MarkerIndex(s).Some? then MarkerIndex(s).value else |s|;
      forall i | 0 <= i < n ensures !("\n@@" <= s[i..]) {
        assert i > 0 ==> s[i..] == s[1..][i - 1..];
      }
    }
  }

  ghost predicate Unmarked(s: string) {
    s == "" || (!Marked(s) && Unmarked(s[1..]))
  }

  lemma {:induction false} BeforeMarker(s: string)
    ensures MarkerIndex(s).None? ==> Unmarked(s)
    ensures MarkerIndex(s).Some? ==> Unmarked(s[..MarkerIndex(s).value])
  {
    if s != "" && !Marked(s) {
      BeforeMarker(s[1..]);
      if MarkerIndex(s).Some? {
        var i := MarkerIndex(s).value;
        assert s[..i][1..] == s[1..][..i - 1];
      }
    }
  }

  ghost predicate Quiet(lines: seq<string>) {
    forall l :: l in lines ==> !AtHunk(l)
  }

  lemma {:induction false} FirstLine(s: string)
    ensures AtHunk(SplitLines(s)[0]) <==> AtHunk(s)
    ensures SplitLines(s)[0] == "" <==> s == "" || s[0] == '\n'
  {
    if |s| >= 2 {
      assert SplitLines(s[1..]) == Attach(s[1], SplitLines(s[2..])) by {
        assert s[1..][1..] == s[2..];
      }
    } else if |s| == 1 {
      assert SplitLines(s[1..]) == [""];
    }
  }

  /** Without the marker only the first line can start a hunk. */
  lemma {:induction false} UnmarkedLines(s: string)
    requires Unmarked(s)
    ensures Quiet(SplitLines(s)[1..])
  {
    if s != "" {
      UnmarkedLines(s[1..]);
      FirstLine(s[1..]);
      var rest := SplitLines(s[1..]);
      assert rest == [rest[0]] + rest[1..];
      if s[0] == '\n' {
        assert SplitLines(s)[1..] == rest;
      } else {
        assert SplitLines(s)[1..] == rest[1..];
      }
    }
  }

  lemma QuietText(s: string)
    requires Unmarked(s) && !AtHunk(s)
    ensures Quiet(SplitLines(s))
  {
    hide SplitLines;
    UnmarkedLines(s);
    FirstLine(s);
    var lines := SplitLines(s);
    assert lines == [lines[0]] + lines[1..];
  }

  predicate HunkStart(line: string) {
    "@@ -" <= line
  }

  lemma QuietStep(line: string)
    requires !HunkStart(line)
    ensures Step(START, line) == START
  {
  }

  lemma {:induction false} QuietSteps(lines: seq<string>)
    requires forall l :: l in lines ==> !HunkStart(l)
    ensures Steps(START, lines) == START
    decreases lines
  {
    hide Step;
    if lines != [] {
      assert lines[0] in lines && forall l :: l in lines[1..] ==> l in lines;
      QuietStep(lines[0]);
      QuietSteps(lines[1..]);
    }
  }

  /** The header ends where a line ends. */
  predicate Closed(header: string) {
    header == "" || header[|header| - 1] == '\n'
  }

  /** A header carried over from a diff is followed correctly by printed hunks. */
  lemma ClosedRoundTrip(raw: string, hunks: seq<Hunk>)
    requires Closed(DiffHeader(raw)) && forall h :: h in hunks ==> Writable(h)
    ensures Hunks(DiffHeader(raw) + Rendered(hunks)) == hunks <==> forall h :: h in hunks ==> Printable(h)
  {
    hide Rendered, Steps, SplitLines, MarkerIndex, Writable, Printable, AllClamped;
    var header := DiffHeader(raw);
    PrintedReadsBack(START, hunks);
    if header == "" {
      assert header + Rendered(hunks) == Rendered(hunks);
    } else {
      var body := header[..|header| - 1];
      assert header + Rendered(hunks) == body + "\n" + Rendered(hunks);
      SplitAtNewline(body, Rendered(hunks));
      BeforeMarker(raw);
      if MarkerIndex(raw).Some? {
        assert body == raw[..MarkerIndex(raw).value];
      } else {
        UnmarkedPrefix(raw, |body|);
      }
      QuietText(body);
      QuietSteps(SplitLines(body));
      StepsAppend(START, SplitLines(body), SplitLines(Rendered(hunks)));
    }
    assert [] + hunks == hunks;
  }

  lemma {:induction false} UnmarkedPrefix(s: string, n: nat)
    requires n <= |s| && Unmarked(s)
    ensures Unmarked(s[..n])
  {
    if n > 0 {
      UnmarkedPrefix(s[1..], n - 1);
      assert s[..n][1..] == s[1..][..n - 1];
    }
  }

  lemma {:induction false} SplitGlue(a: string, w: string)
    requires '\n' !in w
    ensures var lines := SplitLines(a); var n := |lines| - 1;
            SplitLines(a + w) == lines[..n] + [lines[n] + w]
  {
    if a == "" {
      assert a + w == w;
      SplitOneLine(w);
    } else {
      assert (a + w)[0] == a[0] && (a + w)[1..] == a[1..] + w;
      SplitGlue(a[1..], w);
      AttachGlue(a[0], SplitLines(a[1..]), w);
    }
  }

  lemma AttachGlue(c: char, rest: seq<string>, w: string)
    requires rest != []
    ensures var m := |rest| - 1; var lines := Attach(c, rest); var n := |lines| - 1;
            n >= 0 && Attach(c, rest[..m] + [rest[m] + w]) == lines[..n] + [lines[n] + w]
  {
    var m := |rest| - 1;
    var glued := rest[..m] + [rest[m] + w];
    if c != '\n' && m == 0 {
      assert glued == [rest[0] + w];
      Regroup([c], rest[0], w);
    } else if c != '\n' {
      assert glued[0] == rest[0] && glued[1..] == rest[1..m] + [rest[m] + w];
    }
  }

  lemma {:induction false} LastLine(s: string)
    ensures var lines := SplitLines(s); lines[|lines| - 1] == "" <==> Closed(s)
  {
    if s != "" {
      LastLine(s[1..]);
      var rest := SplitLines(s[1..]);
      if s[0] != '\n' && |rest| == 1 {
        OneLineMeansNoNewline(s[1..]);
        hide SplitLines;
        assert s[|s| - 1] == if |s| > 1 then s[1..][|s| - 2] else s[0];
      } else if |s| > 1 {
        assert s[1..][|s[1..]| - 1] == s[|s| - 1];
      }
    }
  }

  lemma {:induction false} OneLineMeansNoNewline(s: string)
    requires |SplitLines(s)| == 1
    ensures '\n' !in s
  {
    if s != "" {
      OneLineMeansNoNewline(s[1..]);
      assert s == [s[0]] + s[1..];
    }
  }

  lemma MarkedIsClosed(raw: string)
    ensures MarkerIndex(raw).Some? ==> Closed(DiffHeader(raw))
  {
    if MarkerIndex(raw).Some? {
      var i := MarkerIndex(raw).value;
      assert raw[i..][0] == raw[i];
    }
  }

  /** A header that stops inside a line swallows the first hunk header, and with
      it the whole first hunk. */
  lemma OpenLosesFirst(raw: string, hunks: seq<Hunk>)
    requires !Closed(DiffHeader(raw)) && hunks != [] && forall h :: h in hunks ==> Writable(h)
    ensures Hunks(DiffHeader(raw) + Rendered(hunks)) == AllClamped(hunks[1..])
    ensures (forall h :: h in hunks ==> Printable(h)) ==> Hunks(DiffHeader(raw) + Rendered(hunks)) == hunks[1..]
  {
    hide Rendered, Steps, SplitLines, MarkerIndex, Text, WriteLines, WriteHeader, Step, AllClamped;
    MarkedIsClosed(raw);
    BeforeMarker(raw);
    QuietText(raw);
    var h := hunks[0];
    assert h in hunks;
    var w, body, later := WriteHeader(h), Text(WriteLines(h.lines)), Rendered(hunks[1..]);
    FirstRendered(hunks);
    assert raw + Rendered(hunks) == (raw + w) + "\n" + (body + later);
    SplitAtNewline(raw + w, body + later);
    HeaderNewlineFree(h);
    SplitGlue(raw, w);
    LastLine(raw);
    var lines := SplitLines(raw);
    var n := |lines| - 1;
    GluedIsQuiet(lines[n], h);
    forall l | l in SplitLines(raw + w) ensures !HunkStart(l) {
      if l in lines[..n] {
        assert l in lines;
      }
    }
    QuietSteps(SplitLines(raw + w));
    SkippedBody(h.lines, later);
    StepsAppend(START, SplitLines(raw + w), SplitLines(body + later));
    PrintedReadsBack(START, hunks[1..]);
    assert [] + hunks[1..] == hunks[1..];
  }

  lemma FirstRendered(hunks: seq<Hunk>)
    requires hunks != []
    ensures Rendered(hunks)
         == WriteHeader(hunks[0]) + "\n" + (Text(WriteLines(hunks[0].lines)) + Rendered(hunks[1..]))
  {
    hide WriteHeader, WriteLines;
    var h := hunks[0];
    assert Text(HunkLines(h)) == WriteHeader(h) + "\n" + Text(WriteLines(h.lines)) by {
      assert HunkLines(h)[1..] == WriteLines(h.lines);
    }
  }

  lemma GluedIsQuiet(l: string, h: Hunk)
    requires l != "" && !AtHunk(l)
    ensures !HunkStart(l + WriteHeader(h))
  {
    var w := WriteHeader(h);
    assert w[0] == '@';
    if |l| == 1 && l[0] == '@' {
      assert (l + w)[2] == w[1] == '@';
    } else if |l| >= 2 {
      assert (l + w)[0] == l[0] && (l + w)[1] == l[1];
    }
  }

  lemma SkippedBody(lines: seq<HunkLine>, later: string)
    requires forall l :: l in lines ==> '\n' !in l.content
    ensures Steps(START, SplitLines(Text(WriteLines(lines)) + later)) == Steps(START, SplitLines(later))
  {
    hide Step;
    if lines == [] {
      assert Text(WriteLines(lines)) + later == later;
    } else {
      var first, rest := WriteLine(lines[0]), Text(WriteLines(lines[1..]));
      assert Text(WriteLines(lines)) == first + "\n" + rest by {
        assert WriteLines(lines)[1..] == WriteLines(lines[1..]);
      }
      assert Text(WriteLines(lines)) + later == first + "\n" + (rest + later);
      SplitAtNewline(first, rest + later);
      SplitOneLine(first);
      assert first[0] in {'+', '-', ' '};
      QuietStep(first);
      assert ([first] + SplitLines(rest + later))[1..] == SplitLines(rest + later);
      SkippedBody(lines[1..], later);
    }
  }

  /** Parsing undoes printing exactly when the carried header ends with its line
      and the numbers fit an `int`. */
  lemma RoundTripExactly(raw: string, hunks: seq<Hunk>)
    requires forall h :: h in hunks ==> Writable(h)
    ensures Hunks(DiffHeader(raw) + Rendered(hunks)) == hunks
            <==> hunks == [] || (Closed(DiffHeader(raw)) && forall h :: h in hunks ==> Printable(h))
  {
    hide Rendered, Writable, Printable, Hunks, AllClamped, DiffHeader;
    if Closed(DiffHeader(raw)) {
      ClosedRoundTrip(raw, hunks);
    } else if hunks != [] {
      OpenLosesFirst(raw, hunks);
      ClampedSize(hunks[1..]);
    } else {
      assert DiffHeader(raw) + Rendered(hunks) == DiffHeader(raw) by {
        RenderedNone();
      }
      HeaderHasNoHunks(raw);
    }
  }

  lemma {:induction false} ClampedSize(hunks: seq<Hunk>)
    ensures |AllClamped(hunks)| == |hunks|
  {
    if hunks != [] {
      ClampedSize(hunks[1..]);
    }
  }

  lemma HeaderHasNoHunks(raw: string)
    ensures !Closed(DiffHeader(raw)) ==> Hunks(DiffHeader(raw)) == []
  {
    hide SplitLines, Steps;
    if !Closed(DiffHeader(raw)) {
      MarkedIsClosed(raw);
      BeforeMarker(raw);
      QuietText(raw);
      QuietSteps(SplitLines(raw));
    }
  }

  /** The header of a diff that has hunks is always closed. */
  lemma HunksCloseHeader(raw: string)
    requires Hunks(raw) != []
    ensures Closed(DiffHeader(raw))
  {
    hide Hunks;
    MarkedIsClosed(raw);
    HeaderHasNoHunks(raw);
  }
}
