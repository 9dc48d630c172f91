/** Formatting the pipe tables of a document (tools/md_tablefmt.py), line by line, and when formatting it
    again changes nothing. */
module TableFormat {
  import opened Wrappers
  import opened TableText
  import opened TableRows

  // ---- Finding tables ----------------------------------------------------------------------

  /** The lines that the delimiter pattern matches, see `DelimRowIsPattern`. */
  predicate IsDelimRow(line: string) {
    AllDashes(SplitRow(line))
  }

  function DelimText(lead: bool, xs: seq<string>, trail: bool, tail: string): string
    requires xs != []
  {
    (if lead then "|" else "") + Join(xs, "|") + (if trail then "|" + tail else "")
  }

  /** `^\|?\s*:?-+:?\s*(\|\s*:?-+:?\s*)*\|?\s*$` */
  ghost predicate DelimPattern(s: string) {
    exists lead, xs: seq<string>, trail, tail: string ::
      xs != [] && AllDashes(StripAll(xs)) && Blank(tail) && s == DelimText(lead, xs, trail, tail)
  }

  lemma DashChars(x: string)
    requires DashCell(Strip(x))
    ensures x != [] && '|' !in x && '\\' !in x && !Blank(x)
    ensures forall i :: 0 <= i < |x| ==> IsSpace(x[i]) || x[i] == '-' || x[i] == ':'
  {
    hide Strip;
    hide IsSpace;
    var c := Strip(x);
    StripParts(x);
    var a, b :| Blank(a) && Blank(b) && x == a + c + b;
    PipesNotSpace();
    assert forall i :: 0 <= i < |c| ==> c[i] == '-' || c[i] == ':';
    forall i | 0 <= i < |x| ensures IsSpace(x[i]) || x[i] == '-' || x[i] == ':' {
      if i < |a| {
        assert x[i] == a[i];
      } else if i < |a| + |c| {
        assert x[i] == c[i - |a|];
      } else {
        assert x[i] == b[i - |a| - |c|];
      }
    }
    assert x[|a|] == c[0];
  }

  lemma PipesNotSpace()
    ensures !IsSpace('|') && !IsSpace('\\') && !IsSpace('-') && !IsSpace(':')
  {
  }

  lemma {:induction false} JoinEnds(xs: seq<string>)
    requires xs != [] && forall i :: 0 <= i < |xs| ==> xs[i] != []
    ensures var s := Join(xs, "|"); s != [] && s[0] == xs[0][0] && s[|s| - 1] == xs[|xs| - 1][|xs[|xs| - 1]| - 1]
    decreases |xs|
  {
    if |xs| > 1 {
      assert xs[1..][|xs[1..]| - 1] == xs[|xs| - 1];
      JoinEnds(xs[1..]);
    }
  }

  /** What the pattern matches splits into dash cells. */
  lemma PatternSplits(s: string, lead: bool, xs: seq<string>, trail: bool, tail: string)
    requires Stripped(s) && xs != [] && AllDashes(StripAll(xs)) && Blank(tail) && s == DelimText(lead, xs, trail, tail)
    ensures SplitPipes(Inner(s), false) == xs
  {
    hide Strip;
    hide IsSpace;
    hide SplitPipes;
    hide Join;
    hide DashCell;
    PipesNotSpace();
    forall i | 0 <= i < |xs|
      ensures xs[i] != [] && '|' !in xs[i] && '\\' !in xs[i]
      ensures forall j :: 0 <= j < |xs[i]| ==> IsSpace(xs[i][j]) || xs[i][j] == '-' || xs[i][j] == ':'
    {
      DashChars(xs[i]);
    }
    JoinEnds(xs);
    SplitJoin(xs);
    InnerOf(s, lead, Join(xs, "|"), trail, tail);
  }

  lemma TailLast(s: string, front: string, tail: string)
    requires s == front + tail
    ensures tail != [] ==> s != [] && s[|s| - 1] == tail[|tail| - 1]
  {
  }

  lemma TailEmpty(s: string, front: string, tail: string)
    requires Stripped(s) && Blank(tail) && s == front + tail
    ensures tail == []
  {
    TailLast(s, front, tail);
  }

  /** Dropping the outer pipes. */
  lemma InnerOf(s: string, lead: bool, mid: string, trail: bool, tail: string)
    requires Stripped(s) && Blank(tail) && mid != []
    requires s == (if lead then "|" else "") + mid + (if trail then "|" + tail else "")
    requires mid[0] != '|' && mid[|mid| - 1] != '|' && mid[|mid| - 1] != '\\'
    ensures Inner(s) == mid
  {
    var t := mid + (if trail then "|" + tail else "");
    if trail {
      TailEmpty(s, (if lead then "|" else "") + mid + "|", tail);
      assert t == mid + "|";
      assert t[|t| - 1] == '|' && t[|t| - 2] == mid[|mid| - 1] && t[..|t| - 1] == mid;
    } else {
      assert t == mid;
    }
    if lead {
      assert s[1..] == t && s[0] == '|';
    } else {
      assert s == t && s[0] == mid[0];
    }
  }

  /** A line is taken for a delimiter row exactly when the pattern matches it, stripped. */
  lemma DelimRowIsPattern(line: string)
    ensures IsDelimRow(line) <==> DelimPattern(Strip(line))
  {
    hide Strip;
    hide SplitPipes;
    hide Inner;
    hide DashCell;
    var s := Strip(line);
    if DelimPattern(s) {
      var lead, xs: seq<string>, trail, tail: string :|
        xs != [] && AllDashes(StripAll(xs)) && Blank(tail) && s == DelimText(lead, xs, trail, tail);
      PatternSplits(s, lead, xs, trail, tail);
    }
    if IsDelimRow(line) {
      var xs := SplitPipes(Inner(s), false);
      JoinSplit(Inner(s), false);
      Outer(s);
      assert "|" + [] == "|";
      assert s == DelimText(LeadPipe(s), xs, TrailPipe(s), []);
    }
  }

  function LeadPipe(s: string): bool {
    s != [] && s[0] == '|'
  }

  function TrailPipe(s: string): bool {
    var t := if LeadPipe(s) then s[1..] else s;
    t != [] && t[|t| - 1] == '|' && !(|t| >= 2 && t[|t| - 2] == '\\')
  }

  lemma Outer(s: string)
    ensures s == (if LeadPipe(s) then "|" else "") + Inner(s) + (if TrailPipe(s) then "|" else "")
  {
    var a, c := if LeadPipe(s) then "|" else "", if TrailPipe(s) then "|" else "";
    var t := if LeadPipe(s) then s[1..] else s;
    assert s == a + t by {
      if LeadPipe(s) {
        assert s == [s[0]] + s[1..];
      }
    }
    assert t == Inner(s) + c by {
      if TrailPipe(s) {
        assert t == t[..|t| - 1] + [t[|t| - 1]];
      }
    }
    AddedTwice(a, Inner(s), c);
  }

  lemma AddedTwice(a: string, b: string, c: string)
    ensures a + (b + c) == a + b + c
  {
  }

  /** `_is_table_block` at the first line. */
  predicate TableAt(lines: seq<string>) {
    |lines| >= 2 && '|' in lines[0] && IsDelimRow(lines[1])
  }

  predicate StartsWithPipe(line: string) {
    var s := Strip(line);
    s != [] && s[0] == '|'
  }

  /** How many of the lines belong to a table's body. */
  function BodyLength(lines: seq<string>): (n: nat)
    ensures n <= |lines|
  {
    if lines == [] || !StartsWithPipe(lines[0]) then 0 else 1 + BodyLength(lines[1..])
  }

  // ---- Formatting -----------------------------------------------------------------------------

  const PAD: nat := 2

  function SplitRows(lines: seq<string>): (rows: seq<seq<string>>)
    ensures |rows| == |lines| && forall i :: 0 <= i < |lines| ==> rows[i] == SplitRow(lines[i])
  {
    seq(|lines|, i requires 0 <= i < |lines| => SplitRow(lines[i]))
  }

  /** The alignments of the delimiter row, all left when they are not as many as the columns. */
  function Alignments(header: seq<string>, delim: seq<string>): (r: seq<Align>)
    ensures |r| == |header|
  {
    if |delim| == |header| then seq(|delim|, i requires 0 <= i < |delim| => ParseDelimiter(delim[i]))
    else seq(|header|, _ => Left)
  }

  predicate Rectangular(rows: seq<seq<string>>, n: nat) {
    forall i :: 0 <= i < |rows| ==> |rows[i]| == n
  }

  /** The longest cell of a column. */
  function Widest(rows: seq<seq<string>>, column: nat): nat
    requires forall i :: 0 <= i < |rows| ==> column < |rows[i]|
  {
    if rows == [] then 0
    else
      var rest := Widest(rows[1..], column);
      if |rows[0][column]| > rest then |rows[0][column]| else rest
  }

  /** `_column_widths` of the header and the rows. */
  function Widths(header: seq<string>, rows: seq<seq<string>>): (r: seq<nat>)
    requires Rectangular(rows, |header|)
    ensures |r| == |header|
  {
    seq(|header|, i requires 0 <= i < |header| => Widest([header] + rows, i))
  }

  function RowLines(rows: seq<seq<string>>, aligns: seq<Align>, widths: seq<nat>): (r: seq<string>)
    requires |aligns| == |widths| > 0 && Rectangular(rows, |aligns|)
    ensures |r| == |rows| && forall i :: 0 <= i < |rows| ==> r[i] == RowLine(rows[i], aligns, widths, PAD)
  {
    seq(|rows|, i requires 0 <= i < |rows| => RowLine(rows[i], aligns, widths, PAD))
  }

  /** `align_table`; `None` where it raises because a row has another number of cells. */
  function AlignTable(header: seq<string>, rows: seq<seq<string>>, aligns: seq<Align>): (r: Option<seq<string>>)
    requires |aligns| == |header| > 0
    ensures r.Some? <==> Rectangular(rows, |header|)
    ensures r.Some? ==> |r.value| == 2 + |rows|
  {
    if !Rectangular(rows, |header|) then None
    else
      var widths := Widths(header, rows);
      Some([RowLine(header, aligns, widths, PAD), DelimLine(aligns, widths, PAD)] + RowLines(rows, aligns, widths))
  }

  function Joined(first: Option<seq<string>>, rest: Option<seq<string>>): Option<seq<string>> {
    if first.Some? && rest.Some? then Some(first.value + rest.value) else None
  }

  /** The table that starts at the first line. */
  function FormatTable(lines: seq<string>): (r: Option<seq<string>>)
    requires |lines| >= 2
    ensures r.Some? ==> |r.value| == 2 + BodyLength(lines[2..])
  {
    var header, body := SplitRow(lines[0]), lines[2..][..BodyLength(lines[2..])];
    AlignTable(header, SplitRows(body), Alignments(header, SplitRow(lines[1])))
  }

  /** `format_markdown_tables` on lines; `None` where it raises. */
  function FormatLines(lines: seq<string>): (r: Option<seq<string>>)
    decreases |lines|
  {
    if lines == [] then Some([])
    else if TableAt(lines) then Joined(FormatTable(lines), FormatLines(lines[2 + BodyLength(lines[2..])..]))
    else Joined(Some([lines[0]]), FormatLines(lines[1..]))
  }

  /** No table is followed at once by another one. */
  predicate NoAdjacentTables(lines: seq<string>)
    decreases |lines|
  {
    if lines == [] then true
    else if TableAt(lines) then
      var rest := lines[2 + BodyLength(lines[2..])..];
      !TableAt(rest) && NoAdjacentTables(rest)
    else NoAdjacentTables(lines[1..])
  }

  // ---- A formatted table is a table again, the same one ---------------------------------------------

  /** What is known of a table just formatted. */
  predicate IsFormatted(t: seq<string>, header: seq<string>, rows: seq<seq<string>>, aligns: seq<Align>)
    requires |aligns| == |header| > 0
  {
    && Some(t) == AlignTable(header, rows, aligns) && AllCells(header)
    && forall i :: 0 <= i < |rows| ==> AllCells(rows[i])
  }

  lemma SplitRowsCells(lines: seq<string>)
    ensures forall i :: 0 <= i < |SplitRows(lines)| ==> AllCells(SplitRows(lines)[i])
  {
    hide SplitRow;
    hide AllCells;
    forall i | 0 <= i < |SplitRows(lines)| ensures AllCells(SplitRows(lines)[i]) {
      SplitRowCells(lines[i]);
    }
  }

  lemma FramedStarts(xs: seq<string>)
    requires xs != []
    ensures StartsWithPipe(Framed(xs)) && '|' in Framed(xs)
  {
    hide Strip;
    hide RStrip;
    hide Join;
    InnerFramed(xs);
    assert Framed(xs)[0] == '|';
  }

  /** The lines of a formatted table split into what it was made of. */
  lemma FormattedLines(t: seq<string>, header: seq<string>, rows: seq<seq<string>>, aligns: seq<Align>)
    requires |aligns| == |header| > 0 && IsFormatted(t, header, rows, aligns)
    ensures |t| == 2 + |rows| && Rectangular(rows, |header|)
    ensures SplitRow(t[0]) == header && StartsWithPipe(t[0]) && '|' in t[0]
    ensures IsDelimRow(t[1]) && StartsWithPipe(t[1]) && Alignments(header, SplitRow(t[1])) == aligns
    ensures forall i :: 0 <= i < |rows| ==> SplitRow(t[2 + i]) == rows[i] && StartsWithPipe(t[2 + i])
  {
    hide SplitRow;
    hide AllCells;
    hide StartsWithPipe;
    hide RowLine;
    hide DelimLine;
    hide Widths;
    hide AllDashes;
    hide ParseDelimiter;
    var widths := Widths(header, rows);
    SplitRowLine(header, aligns, widths, PAD);
    RowLineStarts(header, aligns, widths);
    SplitDelimLine(aligns, widths, PAD);
    FramedStarts(DelimParts(aligns, widths, PAD));
    assert t[0] == RowLine(header, aligns, widths, PAD) && t[1] == DelimLine(aligns, widths, PAD);
    forall i | 0 <= i < |rows| ensures SplitRow(t[2 + i]) == rows[i] && StartsWithPipe(t[2 + i]) {
      assert t[2 + i] == RowLines(rows, aligns, widths)[i];
      SplitRowLine(rows[i], aligns, widths, PAD);
      RowLineStarts(rows[i], aligns, widths);
    }
  }

  lemma RowLineStarts(cells: seq<string>, aligns: seq<Align>, widths: seq<nat>)
    requires |aligns| == |cells| == |widths| && cells != []
    ensures StartsWithPipe(RowLine(cells, aligns, widths, PAD)) && '|' in RowLine(cells, aligns, widths, PAD)
  {
    hide StartsWithPipe;
    hide Framed;
    FramedStarts(ApplyAll(cells, aligns, widths, PAD));
  }

  lemma {:induction false} BodyOf(body: seq<string>, rest: seq<string>)
    requires forall i :: 0 <= i < |body| ==> StartsWithPipe(body[i])
    ensures BodyLength(body + rest) == |body| + BodyLength(rest)
    decreases |body|
  {
    hide StartsWithPipe;
    if body == [] {
      assert body + rest == rest;
    } else {
      assert (body + rest)[0] == body[0] && (body + rest)[1..] == body[1..] + rest;
      assert forall i :: 0 <= i < |body[1..]| ==> body[1..][i] == body[i + 1];
      BodyOf(body[1..], rest);
    }
  }

  /** A formatted table in front of lines that do not go on with its body. */
  lemma FormatAgain(t: seq<string>, header: seq<string>, rows: seq<seq<string>>, aligns: seq<Align>, rest: seq<string>)
    requires |aligns| == |header| > 0 && IsFormatted(t, header, rows, aligns)
    requires rest == [] || !StartsWithPipe(rest[0])
    ensures FormatLines(t + rest) == Joined(Some(t), FormatLines(rest))
  {
    hide StartsWithPipe;
    hide IsFormatted;
    hide SplitRow;
    hide IsDelimRow;
    hide AlignTable;
    hide Alignments;
    FormattedLines(t, header, rows, aligns);
    var all := t + rest;
    assert all[0] == t[0] && all[1] == t[1];
    assert all[2..] == t[2..] + rest;
    forall i | 0 <= i < |t[2..]| ensures StartsWithPipe(t[2..][i]) {
      assert t[2..][i] == t[2 + i] && SplitRow(t[2 + i]) == rows[i];
    }
    BodyOf(t[2..], rest);
    assert all[2..2 + |rows|] == t[2..];
    assert all[2 + |rows|..] == rest;
    assert SplitRows(t[2..]) == rows;
    TableIs(t, header, rows, aligns);
  }

  lemma TableIs(t: seq<string>, header: seq<string>, rows: seq<seq<string>>, aligns: seq<Align>)
    requires |aligns| == |header| > 0 && IsFormatted(t, header, rows, aligns)
    ensures Some(t) == AlignTable(header, rows, aligns)
  {
  }

  // ---- The first line of formatted lines --------------------------------------------------------------

  /** The table at the first line, formatted. */
  lemma TableFormatted(lines: seq<string>)
    requires TableAt(lines) && FormatTable(lines).Some?
    ensures var header := SplitRow(lines[0]);
            var aligns := Alignments(header, SplitRow(lines[1]));
            IsFormatted(FormatTable(lines).value, header, SplitRows(lines[2..][..BodyLength(lines[2..])]), aligns)
  {
    hide SplitRow;
    hide IsDelimRow;
    hide AlignTable;
    hide AllCells;
    hide Alignments;
    SplitRowCells(lines[0]);
    SplitRowsCells(lines[2..][..BodyLength(lines[2..])]);
  }

  /** The first line out: a formatted header for a table, the same line otherwise. */
  lemma HeadOut(lines: seq<string>, out: seq<string>)
    requires FormatLines(lines) == Some(out)
    ensures lines == [] <==> out == []
    ensures lines != [] ==> (IsDelimRow(out[0]) <==> IsDelimRow(lines[0]))
    ensures lines != [] && !TableAt(lines) ==> out[0] == lines[0]
    ensures TableAt(lines) ==> |out| >= 2 && StartsWithPipe(out[0]) && StartsWithPipe(out[1]) && TurnsDelim(out[1])
  {
    hide SplitRow;
    hide StartsWithPipe;
    hide FormatTable;
    hide AllDashes;
    hide Alignments;
    hide TurnsDelim;
    hide IsFormatted;
    if lines != [] && TableAt(lines) {
      var t := FormatTable(lines).value;
      TableFormatted(lines);
      var header := SplitRow(lines[0]);
      var aligns := Alignments(header, SplitRow(lines[1]));
      var rows := SplitRows(lines[2..][..BodyLength(lines[2..])]);
      FormattedLines(t, header, rows, aligns);
      DelimThird(t, header, rows, aligns);
      assert out[0] == t[0] && out[1] == t[1];
    }
  }

  /** A delimiter row as this program writes it: a dash or colon right after the pipe and one space. */
  predicate TurnsDelim(line: string) {
    |line| > 2 && line[2] != ' '
  }

  lemma DelimThird(t: seq<string>, header: seq<string>, rows: seq<seq<string>>, aligns: seq<Align>)
    requires |aligns| == |header| > 0 && IsFormatted(t, header, rows, aligns)
    ensures |t| >= 2 && TurnsDelim(t[1])
  {
    hide RowLine;
    hide DelimLine;
    hide Widths;
    hide AllCells;
    hide TurnsDelim;
    var widths := Widths(header, rows);
    assert t[1] == DelimLine(aligns, widths, PAD);
    DelimLineThird(aligns, widths);
  }

  lemma DelimLineThird(aligns: seq<Align>, widths: seq<nat>)
    requires |aligns| == |widths| && aligns != []
    ensures TurnsDelim(DelimLine(aligns, widths, PAD))
  {
    hide DelimPart;
    hide Join;
    hide Strip;
    hide NoBarePipe;
    hide DashCell;
    hide ParseDelimiter;
    hide Blank;
    var parts := DelimParts(aligns, widths, PAD);
    PartShape(aligns[0], widths[0], PAD);
    JoinHead(parts, " | ");
    var j := Join(parts, " | ");
    assert ("| " + j + " |")[2] == j[0];
  }

  lemma JoinHead(xs: seq<string>, sep: string)
    requires xs != [] && xs[0] != []
    ensures Join(xs, sep) != [] && Join(xs, sep)[0] == xs[0][0]
  {
  }

  /** A rendered row has two spaces after its first pipe. */
  lemma RowThird(cells: seq<string>, aligns: seq<Align>, widths: seq<nat>)
    requires |aligns| == |cells| == |widths| && cells != []
    ensures !TurnsDelim(RowLine(cells, aligns, widths, PAD))
  {
    hide RStrip;
    var xs := ApplyAll(cells, aligns, widths, PAD);
    var j := Join(xs, " | ");
    assert xs[0][0] == ' ';
    JoinHead(xs, " | ");
    var r := RStrip(j);
    RStripHead(j);
    assert Framed(xs)[2] == if r != [] then r[0] else ' ';
  }

  lemma RStripHead(s: string)
    ensures RStrip(s) != [] ==> RStrip(s)[0] == s[0]
  {
  }

  // ---- Formatting twice ------------------------------------------------------------------------------

  /** A table right behind a formatted one is swallowed by it the next time, and its delimiter row changes. */
  lemma Swallowed(t: seq<string>, header: seq<string>, rows: seq<seq<string>>, aligns: seq<Align>, rest: seq<string>)
    requires |aligns| == |header| > 0 && IsFormatted(t, header, rows, aligns)
    requires |rest| >= 2 && StartsWithPipe(rest[0]) && StartsWithPipe(rest[1]) && TurnsDelim(rest[1])
    ensures FormatLines(t + rest) != Some(t + rest)
  {
    hide StartsWithPipe;
    hide IsFormatted;
    hide SplitRow;
    hide IsDelimRow;
    hide Alignments;
    hide RowLine;
    hide DelimLine;
    hide Widths;
    hide TurnsDelim;
    FormattedLines(t, header, rows, aligns);
    var all := t + rest;
    assert all[0] == t[0] && all[1] == t[1] && all[2..] == t[2..] + rest;
    forall i | 0 <= i < |t[2..]| ensures StartsWithPipe(t[2..][i]) {
      assert t[2..][i] == t[2 + i] && SplitRow(t[2 + i]) == rows[i];
    }
    BodyOf(t[2..], rest);
    TwoMore(rest);
    var n := BodyLength(all[2..]);
    var k := |rows| + 1;
    assert k < n;
    var body := all[2..][..n];
    var first := FormatTable(all);
    if FormatLines(all) == Some(all) {
      assert first.Some?;
      assert all[2 + k] == rest[1];
      assert first.value[2 + k] == all[2 + k];
      var rows' := SplitRows(body);
      var aligns' := Alignments(SplitRow(all[0]), SplitRow(all[1]));
      var widths' := Widths(SplitRow(all[0]), rows');
      assert first.value[2 + k] == RowLines(rows', aligns', widths')[k];
      RowThird(rows'[k], aligns', widths');
      assert false;
    }
  }

  lemma TwoMore(rest: seq<string>)
    requires |rest| >= 2 && StartsWithPipe(rest[0]) && StartsWithPipe(rest[1])
    ensures BodyLength(rest) >= 2
  {
    hide StartsWithPipe;
    assert rest[1..][0] == rest[1];
  }

  lemma {:induction false} BodyStops(lines: seq<string>)
    ensures var n := BodyLength(lines); n < |lines| ==> !StartsWithPipe(lines[n])
  {
    hide StartsWithPipe;
    if lines != [] && StartsWithPipe(lines[0]) {
      BodyStops(lines[1..]);
    }
  }

  lemma JoinedSame(a: seq<string>, b: seq<string>, r: Option<seq<string>>)
    ensures Joined(Some(a), r) == Some(a + b) <==> r == Some(b)
  {
    if r.Some? && a + r.value == a + b {
      assert (a + r.value)[|a|..] == r.value && (a + b)[|a|..] == b;
    }
  }

  /** Whenever formatting succeeds, formatting the result again changes nothing if and only if no table
      follows another one at once. */
  lemma {:induction false} FormatTwice(lines: seq<string>, out: seq<string>)
    requires FormatLines(lines) == Some(out)
    ensures FormatLines(out) == Some(out) <==> NoAdjacentTables(lines)
    decreases |lines|
  {
    hide StartsWithPipe;
    hide IsDelimRow;
    hide FormatTable;
    hide TurnsDelim;
    hide IsFormatted;
    hide Alignments;
    hide SplitRow;
    if lines == [] {
    } else if TableAt(lines) {
      var n := 2 + BodyLength(lines[2..]);
      var rest := lines[n..];
      var t, out' := FormatTable(lines).value, FormatLines(rest).value;
      var header := SplitRow(lines[0]);
      var aligns := Alignments(header, SplitRow(lines[1]));
      var rows := SplitRows(lines[2..][..n - 2]);
      TableFormatted(lines);
      FormatTwice(rest, out');
      HeadOut(rest, out');
      if TableAt(rest) {
        Swallowed(t, header, rows, aligns, out');
      } else {
        BodyStops(lines[2..]);
        assert rest != [] ==> rest[0] == lines[2..][n - 2];
        FormatAgain(t, header, rows, aligns, out');
        JoinedSame(t, out', FormatLines(out'));
      }
    } else {
      var rest := lines[1..];
      var out' := FormatLines(rest).value;
      FormatTwice(rest, out');
      HeadOut(rest, out');
      assert out == [lines[0]] + out';
      assert out[0] == lines[0] && out[1..] == out';
      assert rest != [] ==> rest[0] == lines[1] && out'[0] == out[1];
      assert !TableAt(out);
      JoinedSame([lines[0]], out', FormatLines(out'));
    }
  }

  /** Two tables in a row: the second header has no leading pipe, so it starts a table of its own; once
      formatted it has one, and the first table takes it for a row. Formatting succeeds, and formatting the
      result again gives something else. */
  lemma AdjacentTables()
    ensures var lines := ["a|b", "-|-", "c|d", "-|-"];
            && !NoAdjacentTables(lines)
            && FormatLines(lines).Some? && FormatLines(FormatLines(lines).value) != FormatLines(lines)
  {
    hide IsDelimRow;
    hide StartsWithPipe;
    hide FormatTable;
    var lines := ["a|b", "-|-", "c|d", "-|-"];
    DashRow();
    NotPiped();
    assert "a|b"[1] == '|' && "c|d"[1] == '|';
    assert lines[2..] == ["c|d", "-|-"];
    assert BodyLength(lines[2..]) == 0;
    assert TableAt(lines[2..]);
    assert !NoAdjacentTables(lines);
    assert lines[2..][2..] == [] && lines[4..] == [];
    EmptyBody(lines);
    EmptyBody(lines[2..]);
    assert FormatLines(lines[2..]) == Joined(FormatTable(lines[2..]), FormatLines([]));
    assert FormatLines(lines) == Joined(FormatTable(lines), FormatLines(lines[2..]));
    FormatTwice(lines, FormatLines(lines).value);
  }

  /** A table without rows is always formatted. */
  lemma EmptyBody(lines: seq<string>)
    requires |lines| >= 2 && BodyLength(lines[2..]) == 0
    ensures FormatTable(lines).Some?
  {
    hide SplitRow;
    hide Alignments;
    hide RowLine;
    hide DelimLine;
    hide Widths;
  }

  lemma NotPiped()
    ensures !StartsWithPipe("c|d")
  {
    hide Strip;
    StripStripped("c|d");
  }

  lemma DashRow()
    ensures IsDelimRow("-|-")
  {
    hide Strip;
    hide SplitPipes;
    hide IsSpace;
    PipesNotSpace();
    var s := "-|-";
    var xs := ["-", "-"];
    assert xs[1..] == ["-"];
    assert Join(xs, "|") == "-" + "|" + "-" == s;
    SplitJoin(xs);
    StripStripped(s);
    StripStripped("-");
    InnerSame(s);
    assert SplitRow(s) == StripAll(xs);
    assert DashCell("-");
    assert forall i :: 0 <= i < 2 ==> xs[i] == "-" && StripAll(xs)[i] == "-";
  }

  lemma InnerSame(s: string)
    requires s != [] && s[0] != '|' && s[|s| - 1] != '|'
    ensures Inner(s) == s
  {
  }
}
