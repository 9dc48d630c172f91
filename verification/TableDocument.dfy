/** A whole markdown text (tools/md_tablefmt.py): `str.splitlines`, formatting and joining, the loops of
    `format_markdown_tables`, and formatting a text twice. */
module TableDocument {
  import opened Wrappers
  import opened TableText
  import opened TableRows
  import opened TableFormat

  // ---- Lines of a text ---------------------------------------------------------------------

  /** The characters at which `str.splitlines` ends a line. */
  predicate IsBreak(c: char) {
    var k := c as int;
    0x0a <= k <= 0x0d || 0x1c <= k <= 0x1e || k == 0x85 || k == 0x2028 || k == 0x2029
  }

  predicate NoBreak(s: string) {
    forall i :: 0 <= i < |s| ==> !IsBreak(s[i])
  }

  predicate NoBreaks(lines: seq<string>) {
    forall i :: 0 <= i < |lines| ==> NoBreak(lines[i])
  }

  function LineLength(text: string): (n: nat)
    ensures n <= |text| && NoBreak(text[..n]) && (n < |text| ==> IsBreak(text[n]))
  {
    if text == [] || IsBreak(text[0]) then 0
    else
      var n := 1 + LineLength(text[1..]);
      assert text[..n] == [text[0]] + text[1..][..n - 1];
      n
  }

  /** A carriage return and a line feed end one line together. */
  function BreakLength(text: string): (n: nat)
    requires text != []
    ensures 1 <= n <= |text|
  {
    if |text| >= 2 && text[0] == '\r' && text[1] == '\n' then 2 else 1
  }

  /** `str.splitlines` */
  function SplitLines(text: string): (lines: seq<string>)
    decreases |text|
  {
    if text == [] then []
    else
      var n := LineLength(text);
      if n == |text| then [text]
      else
        var rest := text[n..];
        [text[..n]] + SplitLines(rest[BreakLength(rest)..])
  }

  lemma {:induction false} SplitLinesNoBreaks(text: string)
    ensures NoBreaks(SplitLines(text))
    decreases |text|
  {
    if text != [] {
      var n := LineLength(text);
      if n < |text| {
        var rest := text[n..];
        SplitLinesNoBreaks(rest[BreakLength(rest)..]);
      } else {
        assert text[..n] == text;
      }
    }
  }

  /** `"\n".join(lines)` */
  function JoinLines(lines: seq<string>): string {
    if lines == [] then [] else Join(lines, "\n")
  }

  function EndsWithNewline(text: string): bool {
    text != [] && text[|text| - 1] == '\n'
  }

  /** `format_markdown_tables`; `None` where it raises. */
  function Format(text: string): Option<string> {
    match FormatLines(SplitLines(text))
    case None => None
    case Some(out) => Some(JoinLines(out) + (if EndsWithNewline(text) then "\n" else ""))
  }

  // ---- Joining and splitting lines ------------------------------------------------------------

  lemma {:induction false} FirstLineIs(line: string, rest: string)
    requires NoBreak(line)
    ensures LineLength(line + "\n" + rest) == |line|
    decreases |line|
  {
    if line == [] {
      assert (line + "\n" + rest)[0] == '\n';
    } else {
      assert (line + "\n" + rest)[0] == line[0] && (line + "\n" + rest)[1..] == line[1..] + "\n" + rest;
      FirstLineIs(line[1..], rest);
    }
  }

  lemma {:induction false} WholeLine(line: string)
    requires NoBreak(line)
    ensures LineLength(line) == |line|
  {
    if line != [] {
      WholeLine(line[1..]);
    }
  }

  lemma SplitOne(line: string, rest: string)
    requires NoBreak(line)
    ensures SplitLines(line + "\n" + rest) == [line] + SplitLines(rest)
  {
    hide LineLength;
    var text, n := line + "\n" + rest, |line|;
    FirstLineIs(line, rest);
    assert text[..n] == line;
    var after := text[n..];
    assert after[0] == '\n' && after[1..] == rest;
  }

  /** Putting a line in front of lines that come back. */
  lemma LinesBackStep(x: string, more: seq<string>, rest: string)
    requires NoBreak(x) && more != [] && SplitLines(rest + "\n") == more
    requires SplitLines(rest) == if more[|more| - 1] == [] then more[..|more| - 1] else more
    ensures SplitLines(x + "\n" + rest + "\n") == [x] + more
    ensures SplitLines(x + "\n" + rest)
         == if more[|more| - 1] == [] then ([x] + more)[..|more|] else [x] + more
  {
    hide NoBreak;
    hide SplitLines;
    assert x + "\n" + rest + "\n" == x + "\n" + (rest + "\n");
    SplitOne(x, rest + "\n");
    SplitOne(x, rest);
    assert ([x] + more)[..|more|] == [x] + more[..|more| - 1];
  }

  lemma LinesBackOne(x: string)
    requires NoBreak(x)
    ensures SplitLines(x + "\n") == [x] && SplitLines(x) == if x == [] then [] else [x]
  {
    hide LineLength;
    assert x + "\n" == x + "\n" + [];
    SplitOne(x, []);
    WholeLine(x);
  }

  /** Lines without breaks come back from their join, but for an empty last line, which needs a newline of its own. */
  lemma {:induction false} LinesBack(lines: seq<string>)
    requires lines != [] && NoBreaks(lines)
    ensures SplitLines(Join(lines, "\n") + "\n") == lines
    ensures SplitLines(Join(lines, "\n"))
         == if lines[|lines| - 1] == [] then lines[..|lines| - 1] else lines
    decreases |lines|
  {
    hide SplitLines;
    hide NoBreak;
    if |lines| == 1 {
      LinesBackOne(lines[0]);
      assert lines == [lines[0]] && lines[..0] == [];
    } else {
      LinesBack(lines[1..]);
      LinesBackStep(lines[0], lines[1..], Join(lines[1..], "\n"));
      assert lines == [lines[0]] + lines[1..];
    }
  }

  /** Joins of lines without breaks differ when the lines do. */
  lemma JoinsDiffer(a: seq<string>, b: seq<string>)
    requires a != [] && b != [] && NoBreaks(a) && NoBreaks(b) && Join(a, "\n") == Join(b, "\n")
    ensures a == b
  {
    LinesBack(a);
    LinesBack(b);
  }

  /** A text that is a join of lines: with a newline at the end or without. */
  lemma {:induction false} JoinEndsWithNewline(lines: seq<string>)
    requires lines != [] && NoBreaks(lines)
    ensures EndsWithNewline(Join(lines, "\n")) <==> |lines| >= 2 && lines[|lines| - 1] == []
    decreases |lines|
  {
    var x := lines[0];
    if |lines| == 1 {
      assert x != [] ==> !IsBreak(x[|x| - 1]);
    } else {
      var rest := Join(lines[1..], "\n");
      JoinEndsWithNewline(lines[1..]);
      assert lines[1..][|lines[1..]| - 1] == lines[|lines| - 1];
      var s := x + "\n" + rest;
      if rest == [] {
        EmptyJoin(lines[1..]);
        assert s[|s| - 1] == '\n';
      } else {
        assert s[|s| - 1] == rest[|rest| - 1];
      }
    }
  }

  lemma EmptyJoin(lines: seq<string>)
    requires lines != [] && Join(lines, "\n") == []
    ensures lines == [[]]
  {
    assert |lines| == 1;
    assert lines == [lines[0]];
  }

  /** The last empty line of a join can be a newline at the end. */
  lemma {:induction false} DropEmptyLast(lines: seq<string>)
    requires |lines| >= 2 && lines[|lines| - 1] == []
    ensures Join(lines, "\n") == Join(lines[..|lines| - 1], "\n") + "\n"
    decreases |lines|
  {
    var n := |lines| - 1;
    if n == 1 {
      assert lines[1..] == [lines[1]];
      assert lines[..1] == [lines[0]];
      assert lines[0] + "\n" + [] == lines[0] + "\n";
    } else {
      assert lines[1..][|lines[1..]| - 1] == lines[n];
      DropEmptyLast(lines[1..]);
      assert lines[..n][1..] == lines[1..][..n - 1];
      assert lines[0] + "\n" + (Join(lines[1..][..n - 1], "\n") + "\n")
          == lines[0] + "\n" + Join(lines[1..][..n - 1], "\n") + "\n";
    }
  }

  // ---- Formatted lines have no breaks -----------------------------------------------------------

  lemma SpaceNoBreak()
    ensures !IsBreak(' ') && !IsBreak('|') && !IsBreak('-') && !IsBreak(':')
  {
  }

  lemma {:induction false} JoinNoBreak(xs: seq<string>)
    requires xs != [] && NoBreaks(xs)
    ensures NoBreak(Join(xs, " | "))
    decreases |xs|
  {
    hide IsBreak;
    SpaceNoBreak();
    if |xs| > 1 {
      JoinNoBreak(xs[1..]);
      BothNoBreak(xs[0], " | ");
      BothNoBreak(xs[0] + " | ", Join(xs[1..], " | "));
    }
  }

  lemma BothNoBreak(a: string, b: string)
    requires NoBreak(a) && NoBreak(b)
    ensures NoBreak(a + b)
  {
    hide IsBreak;
  }

  lemma {:induction false} SplitPipesNoBreaks(s: string, escaped: bool)
    requires NoBreak(s)
    ensures NoBreaks(SplitPipes(s, escaped))
    decreases |s|
  {
    hide IsBreak;
    if s != [] {
      if s[0] == '|' && !escaped {
        SplitPipesNoBreaks(s[1..], false);
      } else {
        SplitPipesNoBreaks(s[1..], s[0] == '\\');
      }
    }
  }

  lemma PartNoBreak(a: string, s: string, b: string)
    requires NoBreak(a + s + b)
    ensures NoBreak(s)
  {
    hide IsBreak;
    var t := a + s + b;
    assert forall i :: 0 <= i < |s| ==> s[i] == t[|a| + i];
  }

  lemma StripNoBreak(s: string)
    requires NoBreak(s)
    ensures NoBreak(Strip(s))
  {
    hide Strip;
    hide NoBreak;
    StripParts(s);
    var a, b :| Blank(a) && Blank(b) && s == a + Strip(s) + b;
    PartNoBreak(a, Strip(s), b);
  }

  lemma SplitRowNoBreaks(line: string)
    requires NoBreak(line)
    ensures NoBreaks(SplitRow(line))
  {
    hide Strip;
    hide NoBreak;
    hide SplitPipes;
    hide Inner;
    StripNoBreak(line);
    var s := Strip(line);
    Outer(s);
    PartNoBreak(if LeadPipe(s) then "|" else "", Inner(s), if TrailPipe(s) then "|" else "");
    SplitPipesNoBreaks(Inner(s), false);
    var xs := SplitPipes(Inner(s), false);
    forall i | 0 <= i < |xs| ensures NoBreak(Strip(xs[i])) {
      StripNoBreak(xs[i]);
    }
  }

  lemma ApplyNoBreak(c: string, align: Align, w: nat, pad: nat)
    requires NoBreak(c)
    ensures NoBreak(Apply(c, align, w, pad))
  {
    hide IsBreak;
    hide LeadOf;
    SpaceNoBreak();
  }

  lemma RowLineNoBreak(cells: seq<string>, aligns: seq<Align>, widths: seq<nat>)
    requires |aligns| == |cells| == |widths| && cells != [] && NoBreaks(cells)
    ensures NoBreak(RowLine(cells, aligns, widths, PAD))
  {
    hide NoBreak;
    hide Apply;
    hide Join;
    hide RStrip;
    var xs := ApplyAll(cells, aligns, widths, PAD);
    forall i | 0 <= i < |xs| ensures NoBreak(xs[i]) {
      ApplyNoBreak(cells[i], aligns[i], widths[i], PAD);
    }
    JoinNoBreak(xs);
    var j := Join(xs, " | ");
    assert j == [] + RStrip(j) + j[|RStrip(j)|..];
    PartNoBreak([], RStrip(j), j[|RStrip(j)|..]);
    FrameNoBreak(RStrip(j));
  }

  lemma FrameNoBreak(s: string)
    requires NoBreak(s)
    ensures NoBreak("| " + s + " |")
  {
    hide IsBreak;
    SpaceNoBreak();
  }

  lemma DelimLineNoBreak(aligns: seq<Align>, widths: seq<nat>)
    requires |aligns| == |widths| && aligns != []
    ensures NoBreak(DelimLine(aligns, widths, PAD))
  {
    hide NoBreak;
    hide DelimPart;
    hide Join;
    var parts := DelimParts(aligns, widths, PAD);
    forall i | 0 <= i < |parts| ensures NoBreak(parts[i]) {
      DelimPartNoBreak(aligns[i], widths[i]);
    }
    JoinNoBreak(parts);
    FrameNoBreak(Join(parts, " | "));
  }

  lemma DelimPartNoBreak(align: Align, w: nat)
    ensures NoBreak(DelimPart(align, w, PAD))
  {
    hide IsBreak;
    SpaceNoBreak();
  }

  lemma {:induction false} FormatNoBreaks(lines: seq<string>)
    requires NoBreaks(lines) && FormatLines(lines).Some?
    ensures NoBreaks(FormatLines(lines).value)
    decreases |lines|
  {
    hide NoBreak;
    hide TableAt;
    hide FormatTable;
    if lines != [] {
      if TableAt(lines) {
        TwoLines(lines);
        var n := 2 + BodyLength(lines[2..]);
        TableNoBreaks(lines);
        FormatNoBreaks(lines[n..]);
      } else {
        FormatNoBreaks(lines[1..]);
      }
    }
  }

  lemma TableNoBreaks(lines: seq<string>)
    requires NoBreaks(lines) && |lines| >= 2 && FormatTable(lines).Some?
    ensures NoBreaks(FormatTable(lines).value)
  {
    hide NoBreak;
    hide SplitRow;
    hide RowLine;
    hide DelimLine;
    hide Alignments;
    hide Widths;
    var header := SplitRow(lines[0]);
    var body := lines[2..][..BodyLength(lines[2..])];
    var rows := SplitRows(body);
    var aligns := Alignments(header, SplitRow(lines[1]));
    var widths := Widths(header, rows);
    SplitRowNoBreaks(lines[0]);
    RowLineNoBreak(header, aligns, widths);
    DelimLineNoBreak(aligns, widths);
    var drawn := RowLines(rows, aligns, widths);
    forall i | 0 <= i < |rows| ensures NoBreak(drawn[i]) {
      SplitRowNoBreaks(body[i]);
      RowLineNoBreak(rows[i], aligns, widths);
    }
  }

  // ---- An empty line at the end -------------------------------------------------------------------

  lemma EmptyRow()
    ensures SplitRow([]) == [[]]
  {
    hide Strip;
    StripStripped([]);
    assert SplitPipes([], false) == [[]];
    assert StripAll([[]]) == [[]];
  }

  lemma EmptyNoDelim()
    ensures !IsDelimRow([]) && !StartsWithPipe([])
  {
    hide SplitRow;
    StripStripped([]);
    EmptyRow();
    assert SplitRow([])[0] == [] && !DashCell([]);
  }

  lemma {:induction false} BodySnoc(lines: seq<string>, e: string)
    requires !StartsWithPipe(e)
    ensures BodyLength(lines + [e]) == BodyLength(lines)
    decreases |lines|
  {
    hide StartsWithPipe;
    if lines == [] {
      assert lines + [e] == [e];
    } else {
      assert (lines + [e])[0] == lines[0] && (lines + [e])[1..] == lines[1..] + [e];
      BodySnoc(lines[1..], e);
    }
  }

  lemma OneLine(e: string)
    ensures FormatLines([e]) == Some([e])
  {
    hide IsDelimRow;
    assert [e][1..] == [];
    assert [e] + [] == [e];
  }

  /** A last line that is neither a row nor a delimiter row is left alone. */
  lemma {:induction false} PlainLast(lines: seq<string>, e: string)
    requires !StartsWithPipe(e) && !IsDelimRow(e)
    ensures FormatLines(lines + [e]) == Joined(FormatLines(lines), Some([e]))
    decreases |lines|
  {
    hide IsDelimRow;
    hide StartsWithPipe;
    hide FormatTable;
    var more := lines + [e];
    if lines == [] {
      assert more == [e];
      OneLine(e);
      assert [] + [e] == [e];
    } else {
      assert more[0] == lines[0] && more[1..] == lines[1..] + [e];
      assert TableAt(more) == TableAt(lines) by { SecondLine(lines, e); }
      if TableAt(lines) {
        var n := 2 + BodyLength(lines[2..]);
        assert more[2..] == lines[2..] + [e];
        BodySnoc(lines[2..], e);
        assert more[2..n] == lines[2..n] && more[n..] == lines[n..] + [e];
        SameTable(lines, more);
        PlainLast(lines[n..], e);
        JoinedThree(FormatTable(lines), FormatLines(lines[n..]), [e]);
      } else {
        PlainLast(lines[1..], e);
        JoinedThree(Some([lines[0]]), FormatLines(lines[1..]), [e]);
      }
    }
  }

  lemma SecondLine(lines: seq<string>, e: string)
    requires lines != []
    ensures |lines| >= 2 ==> (lines + [e])[1] == lines[1]
    ensures |lines| == 1 ==> (lines + [e])[1] == e
  {
  }

  lemma SameTable(lines: seq<string>, more: seq<string>)
    requires |lines| >= 2 && |more| >= 2 && more[0] == lines[0] && more[1] == lines[1]
    requires BodyLength(more[2..]) == BodyLength(lines[2..])
    requires more[2..][..BodyLength(lines[2..])] == lines[2..][..BodyLength(lines[2..])]
    ensures FormatTable(more) == FormatTable(lines)
  {
    hide SplitRow;
    hide AlignTable;
    hide Alignments;
    hide BodyLength;
    hide SplitRows;
  }

  lemma JoinedThree(a: Option<seq<string>>, b: Option<seq<string>>, c: seq<string>)
    ensures Joined(a, Joined(b, Some(c))) == Joined(Joined(a, b), Some(c))
  {
    if a.Some? && b.Some? {
      assert a.value + (b.value + c) == a.value + b.value + c;
    }
  }

  // ---- Formatting a text twice ----------------------------------------------------------------------

  lemma FormatKeepsCount(lines: seq<string>)
    requires FormatLines(lines).Some?
    ensures |FormatLines(lines).value| == |lines|
    decreases |lines|
  {
    hide TableAt;
    if lines != [] {
      if TableAt(lines) {
        assert |lines| >= 2 by { TwoLines(lines); }
        FormatKeepsCount(lines[2 + BodyLength(lines[2..])..]);
      } else {
        FormatKeepsCount(lines[1..]);
      }
    }
  }

  lemma TwoLines(lines: seq<string>)
    requires TableAt(lines)
    ensures |lines| >= 2
  {
  }

  /** The second formatting sees the lines of the first, but for an empty last line without a newline. */
  lemma SecondPass(out: seq<string>, ending: string)
    requires out != [] && NoBreaks(out) && (ending == "\n" || ending == "")
    ensures var text := Join(out, "\n") + ending; Format(text) == Some(text) <==> FormatLines(out) == Some(out)
  {
    hide SplitLines;
    hide FormatLines;
    hide NoBreaks;
    hide Join;
    hide Format;
    LinesBack(out);
    JoinEndsWithNewline(out);
    if ending == "\n" {
      PassWith(out, ending);
    } else {
      assert Join(out, "\n") + ending == Join(out, "\n");
      if out[|out| - 1] != [] {
        PassWith(out, ending);
      } else if |out| == 1 {
        OneEmpty(out);
      } else {
        EmptyLastPass(out);
      }
    }
  }

  /** The text ends with an empty line that has no newline of its own. */
  lemma EmptyLastPass(out: seq<string>)
    requires |out| >= 2 && out[|out| - 1] == [] && NoBreaks(out)
    ensures var text := Join(out, "\n"); Format(text) == Some(text) <==> FormatLines(out) == Some(out)
  {
    hide SplitLines;
    hide FormatLines;
    hide NoBreaks;
    hide Join;
    hide Format;
    hide StartsWithPipe;
    hide IsDelimRow;
    hide EndsWithNewline;
    var n := |out| - 1;
    var front := out[..n];
    DropEmptyLast(out);
    NoBreaksFront(out);
    EmptyNoDelim();
    PlainLast(front, out[n]);
    assert out == front + [out[n]];
    JoinedLast(FormatLines(front), front, out[n]);
    LinesBack(front);
    PassWith(front, "\n");
  }

  lemma NoBreaksFront(lines: seq<string>)
    requires |lines| >= 2 && NoBreaks(lines)
    ensures NoBreaks(lines[..|lines| - 1])
  {
  }

  lemma JoinedLast(r: Option<seq<string>>, lines: seq<string>, e: string)
    ensures Joined(r, Some([e])) == Some(lines + [e]) <==> r == Some(lines)
  {
    if r.Some? && r.value + [e] == lines + [e] {
      assert r.value == (r.value + [e])[..|r.value|] && lines == (lines + [e])[..|lines|];
    }
  }

  lemma OneEmpty(out: seq<string>)
    requires |out| == 1 && out[0] == []
    ensures FormatLines(out) == Some(out) && Join(out, "\n") == [] && Format([]) == Some([])
  {
    hide FormatTable;
    OneLine(out[0]);
    assert out == [out[0]];
    NoLines([]);
  }

  /** A text whose lines are `out`, with this ending. */
  lemma PassWith(out: seq<string>, ending: string)
    requires out != [] && NoBreaks(out) && (ending == "\n" || ending == "")
    requires SplitLines(Join(out, "\n") + ending) == out
    requires ending == "" ==> !EndsWithNewline(Join(out, "\n"))
    ensures var text := Join(out, "\n") + ending; Format(text) == Some(text) <==> FormatLines(out) == Some(out)
  {
    hide SplitLines;
    hide FormatLines;
    hide NoBreaks;
    hide Join;
    var text := Join(out, "\n") + ending;
    var r := FormatLines(out);
    if ending == "" {
      assert text == Join(out, "\n");
    } else {
      assert text[|text| - 1] == '\n';
    }
    if r.Some? && Format(text) == Some(text) {
      FormatNoBreaks(out);
      FormatKeepsCount(out);
      assert JoinLines(r.value) + ending == Join(out, "\n") + ending;
      SameEnding(JoinLines(r.value), Join(out, "\n"), ending);
      JoinsDiffer(r.value, out);
    }
  }

  lemma SameEnding(a: string, b: string, ending: string)
    requires a + ending == b + ending
    ensures a == b
  {
    assert |a| == |b|;
    assert a == (a + ending)[..|a|] && b == (b + ending)[..|b|];
  }

  /** Whenever formatting a text succeeds, formatting the result changes nothing if and only if no table
      in the text is followed at once by another one. */
  lemma FormatTextTwice(text: string)
    requires Format(text).Some?
    ensures Format(Format(text).value) == Format(text) <==> NoAdjacentTables(SplitLines(text))
  {
    hide SplitLines;
    hide FormatLines;
    hide NoBreaks;
    hide NoAdjacentTables;
    hide Join;
    var lines := SplitLines(text);
    var out := FormatLines(lines).value;
    SplitLinesNoBreaks(text);
    FormatNoBreaks(lines);
    FormatTwice(lines, out);
    FormatKeepsCount(lines);
    if out == [] {
      NoLines(text);
    } else {
      SecondPass(out, if EndsWithNewline(text) then "\n" else "");
    }
  }

  lemma NoLines(text: string)
    requires SplitLines(text) == []
    ensures text == [] && Format(text) == Some(text) && NoAdjacentTables([])
  {
    assert FormatLines([]) == Some([]);
    assert JoinLines([]) == [];
    var e: string := [];
    assert e + [] == e;
  }

  // ---- The loops -------------------------------------------------------------------------------------

  /** `delim_line`: the parts are appended one by one. */
  method DelimLineParts(aligns: seq<Align>, widths: seq<nat>, pad: nat) returns (parts: seq<string>)
    requires |aligns| == |widths|
    ensures parts == DelimParts(aligns, widths, pad)
  {
    parts := [];
    for i := 0 to |aligns|
      invariant |parts| == i && forall k :: 0 <= k < i ==> parts[k] == DelimPart(aligns[k], widths[k], pad)
    {
      var span := (if widths[i] > 3 then widths[i] else 3) + 2 * pad;
      match aligns[i]
      case Center => parts := parts + [":" + Repeat('-', span - 2) + ":"];
      case Right => parts := parts + ["-" + Repeat('-', span - 2) + ":"];
      case Left => parts := parts + ["-" + Repeat('-', span - 1)];
    }
  }

  /** The inner loop of `format_markdown_tables`: the rows of a table's body and the line after it. */
  method ReadBody(lines: seq<string>, start: nat) returns (rows: seq<seq<string>>, j: nat)
    requires start <= |lines|
    ensures j == start + BodyLength(lines[start..]) <= |lines|
    ensures rows == SplitRows(lines[start..][..BodyLength(lines[start..])])
  {
    hide SplitRow;
    hide StartsWithPipe;
    rows := [];
    j := start;
    while j < |lines| && StartsWithPipe(lines[j])
      invariant start <= j <= |lines| && |rows| == j - start
      invariant forall k :: 0 <= k < |rows| ==> rows[k] == SplitRow(lines[start + k])
      invariant forall k :: start <= k < j ==> StartsWithPipe(lines[k])
    {
      rows := rows + [SplitRow(lines[j])];
      j := j + 1;
    }
    BodyIs(lines, start, j);
    assert rows == SplitRows(lines[start..][..j - start]);
  }

  lemma TableOf(lines: seq<string>, rows: seq<seq<string>>, aligns: seq<Align>)
    requires |lines| >= 2 && rows == SplitRows(lines[2..][..BodyLength(lines[2..])])
    requires aligns == Alignments(SplitRow(lines[0]), SplitRow(lines[1]))
    ensures FormatTable(lines) == AlignTable(SplitRow(lines[0]), rows, aligns)
  {
    hide SplitRow;
    hide AlignTable;
    hide Alignments;
    hide BodyLength;
  }

  /** The loop of `format_markdown_tables`. */
  method FormatDocument(lines: seq<string>) returns (r: Option<seq<string>>)
    ensures r == FormatLines(lines)
  {
    hide TableAt;
    hide SplitRow;
    hide AlignTable;
    hide StartsWithPipe;
    hide Alignments;
    hide Joined;
    hide BodyLength;
    hide FormatTable;
    hide FormatLines;
    var out: seq<string> := [];
    var i := 0;
    var n := |lines|;
    assert lines[0..] == lines;
    JoinedNone(FormatLines(lines));
    while i < n
      invariant 0 <= i <= n && FormatLines(lines) == Joined(Some(out), FormatLines(lines[i..]))
    {
      var left := lines[i..];
      FormatOpens(left);
      if TableAt(left) {
        TwoLines(left);
        var header := SplitRow(lines[i]);
        var delim := SplitRow(lines[i + 1]);
        var alignments := Alignments(header, delim);
        var rows, j := ReadBody(lines, i + 2);
        assert left[2..] == lines[i + 2..];
        var table := AlignTable(header, rows, alignments);
        TableOf(left, rows, alignments);
        assert left[j - i..] == lines[j..];
        if table.None? {
          JoinedFails(out, FormatLines(lines[j..]));
          return None;
        }
        JoinedMore(out, table.value, FormatLines(lines[j..]));
        out := out + table.value;
        i := j;
      } else {
        assert left[1..] == lines[i + 1..];
        JoinedMore(out, [lines[i]], FormatLines(lines[i + 1..]));
        out := out + [lines[i]];
        i := i + 1;
      }
    }
    assert lines[n..] == [];
    JoinedEnd(out);
    r := Some(out);
  }

  lemma FormatOpens(lines: seq<string>)
    requires lines != []
    ensures TableAt(lines) ==>
              |lines| >= 2
              && FormatLines(lines) == Joined(FormatTable(lines), FormatLines(lines[2 + BodyLength(lines[2..])..]))
    ensures !TableAt(lines) ==> FormatLines(lines) == Joined(Some([lines[0]]), FormatLines(lines[1..]))
  {
    hide IsDelimRow;
    hide FormatTable;
  }

  lemma {:induction false} BodyIs(lines: seq<string>, i: nat, j: nat)
    requires i <= j <= |lines| && (forall k :: i <= k < j ==> StartsWithPipe(lines[k]))
    requires j == |lines| || !StartsWithPipe(lines[j])
    ensures BodyLength(lines[i..]) == j - i
    decreases j - i
  {
    hide StartsWithPipe;
    if i < j {
      BodyIs(lines, i + 1, j);
      assert lines[i..][1..] == lines[i + 1..];
    }
  }

  lemma JoinedNone(r: Option<seq<string>>)
    ensures Joined(Some([]), r) == r
  {
    if r.Some? {
      assert [] + r.value == r.value;
    }
  }

  lemma JoinedFails(out: seq<string>, r: Option<seq<string>>)
    ensures Joined(Some(out), Joined(None, r)) == None
  {
  }

  lemma JoinedMore(out: seq<string>, t: seq<string>, r: Option<seq<string>>)
    ensures Joined(Some(out), Joined(Some(t), r)) == Joined(Some(out + t), r)
  {
    if r.Some? {
      assert out + (t + r.value) == out + t + r.value;
    }
  }

  lemma JoinedEnd(out: seq<string>)
    ensures FormatLines([]) == Some([]) && Joined(Some(out), Some([])) == Some(out)
  {
    assert out + [] == out;
  }
}
