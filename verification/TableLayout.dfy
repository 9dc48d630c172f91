/** What a formatted table looks like (tools/md_tablefmt.py): which text a cell holds, how wide it is, on which side
    the text stands, where each column starts, and which lines stay as they are. */
module TableLayout {
  import opened Wrappers
  import opened TableText
  import opened TableRows
  import opened TableFormat
  import opened TableDocument

  // ---- Blanks ----------------------------------------------------------------------------------

  /** The characters that `str.strip` takes off. */
  const WHITE_SPACE: string :=
    "\t\n\U{B}\U{C}\r\U{1C}\U{1D}\U{1E}\U{1F} \U{85}\U{A0}\U{1680}\U{2000}\U{2001}\U{2002}\U{2003}"
    + "\U{2004}\U{2005}\U{2006}\U{2007}\U{2008}\U{2009}\U{200A}\U{2028}\U{2029}\U{202F}\U{205F}\U{3000}"

  /** Blanks are these and no others. */
  lemma BlanksAre(c: char)
    ensures IsSpace(c) <==> c in WHITE_SPACE
  {
  }

  // ---- Reading a row -----------------------------------------------------------------------

  /** The pieces between the pipes that have no backslash before them. */
  predicate Pieces(xs: seq<string>) {
    && xs != []
    && (forall i :: 0 <= i < |xs| ==> NoBarePipe(xs[i], false))
    && (forall i :: 0 <= i < |xs| - 1 && xs[i] != [] ==> xs[i][|xs[i]| - 1] != '\\')
  }

  /** A pipe at the end that has no backslash before it. */
  predicate EndsWithPipe(s: string) {
    s != [] && s[|s| - 1] == '|' && (|s| == 1 || s[|s| - 2] != '\\')
  }

  /** A stripped line is an outer pipe or none, the pieces, and an outer pipe or none. */
  predicate MadeOf(s: string, xs: seq<string>) {
    Pieces(xs) &&
    var rest := if s != [] && s[0] == '|' then s[1..] else s;
    rest == if EndsWithPipe(rest) then Join(xs, "|") + "|" else Join(xs, "|")
  }

  lemma {:induction false} PiecesOf(s: string, escaped: bool)
    ensures var r := SplitPipes(s, escaped);
            && (|r| > 1 ==> !EndsEscaped(r[0], escaped))
            && forall i :: 1 <= i < |r| - 1 ==> !EndsEscaped(r[i], false)
    decreases |s|
  {
    if s != [] {
      if s[0] == '|' && !escaped {
        PiecesOf(s[1..], false);
      } else {
        PiecesOf(s[1..], s[0] == '\\');
      }
    }
  }

  /** The cells of a line are its pieces, stripped. */
  lemma CellsOfLine(line: string)
    ensures exists xs: seq<string> :: MadeOf(Strip(line), xs) && SplitRow(line) == StripAll(xs)
  {
    hide Strip;
    hide Join;
    hide NoBarePipe;
    var s := Strip(line);
    var rest := if s != [] && s[0] == '|' then s[1..] else s;
    var u := Inner(s);
    var xs := SplitPipes(u, false);
    PiecesNoBarePipe(u, false);
    PiecesOf(u, false);
    JoinSplit(u, false);
    assert rest == if EndsWithPipe(rest) then u + "|" else u by {
      if EndsWithPipe(rest) {
        assert rest == rest[..|rest| - 1] + [rest[|rest| - 1]];
      }
    }
    assert MadeOf(s, xs);
  }

  lemma {:induction false} SplitPieces(xs: seq<string>)
    requires Pieces(xs)
    ensures SplitPipes(Join(xs, "|"), false) == xs
    decreases |xs|
  {
    hide NoBarePipe;
    var x := xs[0];
    if |xs| == 1 {
      assert x + [] == x;
      SplitPrefix(x, [], false);
      assert xs == [x];
    } else {
      var more := Join(xs[1..], "|");
      assert forall i :: 0 <= i < |xs| - 1 ==> xs[1..][i] == xs[i + 1];
      SplitPieces(xs[1..]);
      assert x + "|" + more == x + ("|" + more);
      SplitPrefix(x, "|" + more, false);
      assert ("|" + more)[1..] == more && !EndsEscaped(x, false);
      assert x + [] == x;
      assert xs == [x] + xs[1..];
    }
  }

  /** A line made of pieces has their texts as cells. */
  lemma LineOfCells(line: string, xs: seq<string>)
    requires MadeOf(Strip(line), xs)
    ensures SplitRow(line) == StripAll(xs)
  {
    hide Strip;
    hide Join;
    hide NoBarePipe;
    var s := Strip(line);
    var rest := if s != [] && s[0] == '|' then s[1..] else s;
    SplitPieces(xs);
    assert Inner(s) == Join(xs, "|") by {
      if EndsWithPipe(rest) {
        assert rest[..|rest| - 1] == Join(xs, "|");
      }
    }
  }

  // ---- One cell ------------------------------------------------------------------------------

  /** The text after `left` spaces and before `right` spaces. */
  predicate TextAt(r: string, text: string, left: nat, right: nat) {
    && |r| == left + |text| + right
    && (forall i :: 0 <= i < left ==> r[i] == ' ')
    && r[left..left + |text|] == text
    && (forall i :: left + |text| <= i < |r| ==> r[i] == ' ')
  }

  /** A cell of width `w` between two spaces on each side: text on the left, on the right, or in the middle, where
      an odd space goes to the left for an odd width and to the right for an even one. */
  ghost predicate Justified(r: string, text: string, align: Align, w: nat) {
    var fill := if |text| <= w then w - |text| else 0;
    match align
    case Left => TextAt(r, text, 2, fill + 2)
    case Right => TextAt(r, text, fill + 2, 2)
    case Center =>
      exists a: nat, b: nat :: TextAt(r, text, a, b) && a + b == fill + 4
                               && (if fill % 2 == 0 then a == b else if w % 2 == 1 then a == b + 1 else b == a + 1)
  }

  lemma ApplyJustified(text: string, align: Align, w: nat)
    requires |text| <= w
    ensures Justified(Apply(text, align, w, 2), text, align, w) && |Apply(text, align, w, 2)| == w + 4
  {
    var fill := w - |text|;
    var lead := LeadOf(|text|, align, w);
    var r := Apply(text, align, w, 2);
    assert r == Spaces(2) + Spaces(lead) + text + Spaces(fill - lead) + Spaces(2);
    assert TextAt(r, text, lead + 2, fill - lead + 2);
  }

  // ---- Widths -------------------------------------------------------------------------------

  /** The longest of some lengths, or 0 of none. */
  predicate IsLongest(w: nat, rows: seq<seq<string>>, column: nat) {
    && (forall i :: 0 <= i < |rows| ==> column < |rows[i]| && |rows[i][column]| <= w)
    && (rows == [] ==> w == 0)
    && (rows != [] ==> exists i :: 0 <= i < |rows| && column < |rows[i]| && |rows[i][column]| == w)
  }

  lemma {:induction false} WidestIsLongest(rows: seq<seq<string>>, column: nat)
    requires forall i :: 0 <= i < |rows| ==> column < |rows[i]|
    ensures IsLongest(Widest(rows, column), rows, column)
  {
    if rows != [] {
      WidestIsLongest(rows[1..], column);
      var w, rest := Widest(rows, column), Widest(rows[1..], column);
      forall i | 0 <= i < |rows| ensures |rows[i][column]| <= w {
        assert i > 0 ==> rows[i] == rows[1..][i - 1];
      }
      if |rows[0][column]| <= rest && |rows| > 1 {
        var i :| 0 <= i < |rows[1..]| && |rows[1..][i][column]| == rest;
        assert rows[i + 1] == rows[1..][i];
      }
      assert rows[0] in rows;
    }
  }

  // ---- One row --------------------------------------------------------------------------------

  /** Where a column starts in a line of cells that wide: after a pipe and a space, then after every cell before it
      and a pipe between spaces. */
  function ColumnStart(widths: seq<nat>, j: nat): nat
    requires j <= |widths|
  {
    if j == 0 then 2 else ColumnStart(widths, j - 1) + widths[j - 1] + 3
  }

  function Lengths(xs: seq<string>): (r: seq<nat>)
    ensures |r| == |xs| && forall i :: 0 <= i < |xs| ==> r[i] == |xs[i]|
  {
    seq(|xs|, i requires 0 <= i < |xs| => |xs[i]|)
  }

  /** A line holds cells in columns: every cell but the last one whole, with pipes around; of the last one the spaces
      at its end are cut. */
  predicate InColumns(line: string, xs: seq<string>)
    requires xs != []
  {
    var widths, n := Lengths(xs), |xs| - 1;
    && ColumnStart(widths, n) <= |line|
    && line[..2] == "| "
    && (forall j :: 0 <= j < n ==> Placed(line, ColumnStart(widths, j), xs[j]))
    && line[ColumnStart(widths, n)..] == if Blank(xs[n]) && n > 0 then "|" else RStrip(xs[n]) + " |"
  }

  /** A cell at a place, and a pipe between spaces behind it. */
  predicate Placed(line: string, at: nat, x: string) {
    at + |x| + 3 <= |line| && line[at..at + |x|] == x && line[at + |x|..at + |x| + 3] == " | "
  }

  /** All cells but the last one with their pipes. */
  function Front(xs: seq<string>): string
    requires xs != []
    decreases |xs|
  {
    if |xs| == 1 then [] else xs[0] + " | " + Front(xs[1..])
  }

  lemma {:induction false} JoinFront(xs: seq<string>)
    requires xs != []
    ensures Join(xs, " | ") == Front(xs) + xs[|xs| - 1]
    decreases |xs|
  {
    if |xs| == 1 {
      assert [] + xs[0] == xs[0];
    } else {
      JoinFront(xs[1..]);
      assert xs[1..][|xs[1..]| - 1] == xs[|xs| - 1];
      assert xs[0] + " | " + (Front(xs[1..]) + xs[|xs| - 1]) == xs[0] + " | " + Front(xs[1..]) + xs[|xs| - 1];
    }
  }

  /** The start of a column of the rest of the cells. */
  lemma {:induction false} StartShift(widths: seq<nat>, j: nat)
    requires 0 < j <= |widths|
    ensures ColumnStart(widths, j) == ColumnStart(widths[1..], j - 1) + widths[0] + 3
  {
    if j > 1 {
      StartShift(widths, j - 1);
      assert widths[1..][j - 2] == widths[j - 1];
    }
  }

  lemma {:induction false} FrontPlaces(xs: seq<string>, pre: string, post: string, j: nat)
    requires xs != [] && j < |xs| - 1
    ensures ColumnStart(Lengths(xs), j) >= 2
    ensures Placed(pre + Front(xs) + post, |pre| + ColumnStart(Lengths(xs), j) - 2, xs[j])
    decreases |xs|
  {
    hide Placed;
    hide ColumnStart;
    FrontSplit(xs, pre, post);
    FirstColumn(Lengths(xs));
    if j == 0 {
      FirstPlaced(pre, xs[0], Front(xs[1..]) + post);
    } else {
      assert Lengths(xs)[1..] == Lengths(xs[1..]);
      StartShift(Lengths(xs), j);
      FrontPlaces(xs[1..], pre + xs[0] + " | ", post, j - 1);
    }
  }

  lemma FirstColumn(widths: seq<nat>)
    ensures ColumnStart(widths, 0) == 2
  {
  }

  lemma FrontSplit(xs: seq<string>, pre: string, post: string)
    requires |xs| > 1
    ensures pre + Front(xs) + post == (pre + xs[0] + " | ") + Front(xs[1..]) + post
         == pre + xs[0] + " | " + (Front(xs[1..]) + post)
  {
    var x, rest := xs[0] + " | ", Front(xs[1..]);
    Joined(pre, xs[0], " | ");
    Joined(pre, x, rest);
    Joined(pre + x, rest, post);
  }

  lemma Joined(a: string, b: string, c: string)
    ensures a + (b + c) == a + b + c
  {
  }

  lemma FirstPlaced(pre: string, x: string, post: string)
    ensures Placed(pre + x + " | " + post, |pre|, x)
  {
  }

  lemma {:induction false} FrontLength(xs: seq<string>)
    requires xs != []
    ensures |Front(xs)| == ColumnStart(Lengths(xs), |xs| - 1) - 2
    decreases |xs|
  {
    if |xs| > 1 {
      FrontLength(xs[1..]);
      assert Lengths(xs)[1..] == Lengths(xs[1..]);
      StartShift(Lengths(xs), |xs| - 1);
    }
  }

  lemma {:induction false} FrontEnds(xs: seq<string>)
    requires |xs| > 1
    ensures |Front(xs)| >= 3 && Front(xs)[|Front(xs)| - 3..] == " | "
    decreases |xs|
  {
    var x, rest := xs[0], Front(xs[1..]);
    if |xs| > 2 {
      FrontEnds(xs[1..]);
      assert Front(xs) == (x + " | ") + rest;
      assert Front(xs)[|Front(xs)| - 3..] == rest[|rest| - 3..];
    } else {
      assert x + " | " + [] == x + " | ";
    }
  }

  /** What is behind the last column start. */
  lemma FramedIs(xs: seq<string>)
    requires xs != []
    ensures var last := xs[|xs| - 1];
            Framed(xs) == "| " + Front(xs) + if Blank(last) && |xs| > 1 then "|" else RStrip(last) + " |"
  {
    hide RStrip;
    hide Join;
    hide Blank;
    hide Front;
    JoinFront(xs);
    var f, last := Front(xs), xs[|xs| - 1];
    RStripLast(f, last);
    if |xs| == 1 {
      OneFront(xs);
      Grouped(f, RStrip(last));
    } else if Blank(last) {
      FrontEnds(xs);
      var g := f[..|f| - 1];
      assert f == g + " " && g[|g| - 1] == '|';
      BlankSpace(g);
      CutSpace(f, g);
    } else {
      Grouped(f, RStrip(last));
    }
  }

  lemma OneFront(xs: seq<string>)
    requires |xs| == 1
    ensures Front(xs) == [] && Join(xs, " | ") == xs[0]
  {
  }

  lemma Grouped(f: string, r: string)
    ensures "| " + (f + r) + " |" == "| " + f + (r + " |")
    ensures f == [] ==> "| " + r + " |" == "| " + f + (r + " |")
  {
  }

  lemma CutSpace(f: string, g: string)
    requires f == g + " "
    ensures "| " + g + " |" == "| " + f + "|"
  {
  }

  lemma BlankSpace(g: string)
    requires g != [] && g[|g| - 1] == '|'
    ensures RStrip(g + " ") == g
  {
    assert Blank(" ");
    RStripLast(g, " ");
    StripStops(g);
  }

  lemma FramedInColumns(xs: seq<string>)
    requires xs != []
    ensures InColumns(Framed(xs), xs)
  {
    hide RStrip;
    hide Join;
    hide Blank;
    hide Framed;
    hide Front;
    hide ColumnStart;
    FramedIs(xs);
    FrontLength(xs);
    var last := xs[|xs| - 1];
    var end := if Blank(last) && |xs| > 1 then "|" else RStrip(last) + " |";
    var line := Framed(xs);
    assert line == "| " + Front(xs) + end;
    forall j | 0 <= j < |xs| - 1 ensures Placed(line, ColumnStart(Lengths(xs), j), xs[j]) {
      FrontPlaces(xs, "| ", end, j);
    }
  }

  // ---- A table ----------------------------------------------------------------------------------

  /** The side a column's text stands on, from its cell in the delimiter row. */
  predicate SaysAlign(cell: string, align: Align) {
    var left := cell != [] && cell[0] == ':';
    var right := cell != [] && cell[|cell| - 1] == ':';
    && (align == Center <==> left && right)
    && (align == Right <==> !left && right)
  }

  /** The alignments of a table: those of the delimiter row if it has a cell for every column, else all left. */
  predicate SaysAligns(delim: seq<string>, aligns: seq<Align>) {
    if |delim| == |aligns| then forall j :: 0 <= j < |aligns| ==> SaysAlign(delim[j], aligns[j])
    else forall j :: 0 <= j < |aligns| ==> aligns[j] == Left
  }

  predicate Fits(texts: seq<string>, widths: seq<nat>) {
    |texts| == |widths| && forall j :: 0 <= j < |texts| ==> |texts[j]| <= widths[j]
  }

  /** A line of a table: each text justified to its column's width, the cells in columns. */
  ghost predicate Rendered(line: string, texts: seq<string>, aligns: seq<Align>, widths: seq<nat>) {
    Fits(texts, widths) && |texts| == |aligns| > 0 &&
    exists xs: seq<string> ::
      && |xs| == |texts| && InColumns(line, xs)
      && forall j :: 0 <= j < |texts| ==> |xs[j]| == widths[j] + 4 && Justified(xs[j], texts[j], aligns[j], widths[j])
  }

  /** A column of the delimiter row: dashes, with colons on the sides that the alignment says. */
  predicate Dashed(x: string, align: Align, w: nat) {
    && |x| == (if w < 3 then 3 else w) + 4
    && (forall i :: 0 < i < |x| - 1 ==> x[i] == '-')
    && x[0] == (if align == Center then ':' else '-')
    && x[|x| - 1] == (if align == Left then '-' else ':')
  }

  ghost predicate DelimRendered(line: string, aligns: seq<Align>, widths: seq<nat>) {
    |aligns| == |widths| > 0 &&
    exists xs: seq<string> ::
      && |xs| == |aligns| && InColumns(line, xs)
      && forall j :: 0 <= j < |aligns| ==> Dashed(xs[j], aligns[j], widths[j])
  }

  lemma RowRendered(texts: seq<string>, aligns: seq<Align>, widths: seq<nat>)
    requires |texts| == |aligns| == |widths| > 0 && forall j :: 0 <= j < |texts| ==> |texts[j]| <= widths[j]
    ensures Rendered(RowLine(texts, aligns, widths, PAD), texts, aligns, widths)
  {
    hide Apply;
    hide Framed;
    hide InColumns;
    hide Justified;
    var xs := ApplyAll(texts, aligns, widths, PAD);
    FramedInColumns(xs);
    forall j | 0 <= j < |texts| ensures |xs[j]| == widths[j] + 4 && Justified(xs[j], texts[j], aligns[j], widths[j]) {
      ApplyJustified(texts[j], aligns[j], widths[j]);
    }
  }

  lemma PartDashed(align: Align, w: nat)
    ensures Dashed(DelimPart(align, w, PAD), align, w)
  {
  }

  lemma DelimIsRendered(aligns: seq<Align>, widths: seq<nat>)
    requires |aligns| == |widths| > 0
    ensures DelimRendered(DelimLine(aligns, widths, PAD), aligns, widths)
  {
    hide DelimPart;
    hide DelimLine;
    hide InColumns;
    hide Dashed;
    hide SplitRow;
    hide AllDashes;
    hide ParseDelimiter;
    SplitDelimLine(aligns, widths, PAD);
    var xs := DelimParts(aligns, widths, PAD);
    FramedInColumns(xs);
    forall j | 0 <= j < |aligns| ensures Dashed(xs[j], aligns[j], widths[j]) {
      PartDashed(aligns[j], widths[j]);
    }
  }

  /** Lines `out` are the table of a header, rows and alignments. */
  ghost predicate IsTable(out: seq<string>, header: seq<string>, rows: seq<seq<string>>, aligns: seq<Align>) {
    exists widths: seq<nat> :: HasColumns(out, header, rows, aligns, widths)
  }

  /** Each column as wide as its longest text, and every line rendered with these widths. */
  ghost predicate HasColumns(out: seq<string>, header: seq<string>, rows: seq<seq<string>>, aligns: seq<Align>,
                             widths: seq<nat>) {
    && |out| == 2 + |rows| && |widths| == |header|
    && (forall j :: 0 <= j < |header| ==> IsLongest(widths[j], [header] + rows, j))
    && Rendered(out[0], header, aligns, widths)
    && DelimRendered(out[1], aligns, widths)
    && forall i :: 0 <= i < |rows| ==> Rendered(out[2 + i], rows[i], aligns, widths)
  }

  lemma WidthsFit(header: seq<string>, rows: seq<seq<string>>)
    requires Rectangular(rows, |header|)
    ensures var widths := Widths(header, rows);
            && (forall j :: 0 <= j < |header| ==> IsLongest(widths[j], [header] + rows, j))
            && Fits(header, widths) && forall i :: 0 <= i < |rows| ==> Fits(rows[i], widths)
  {
    hide Widest;
    hide IsLongest;
    var widths, all := Widths(header, rows), [header] + rows;
    forall j | 0 <= j < |header|
      ensures IsLongest(widths[j], all, j) && forall i :: 0 <= i < |all| ==> |all[i][j]| <= widths[j]
    {
      WidestIsLongest(all, j);
      LongestCovers(widths[j], all, j);
    }
    assert all[0] == header;
    forall i | 0 <= i < |rows| ensures Fits(rows[i], widths) {
      assert all[i + 1] == rows[i];
    }
  }

  lemma LongestCovers(w: nat, rows: seq<seq<string>>, column: nat)
    requires IsLongest(w, rows, column)
    ensures forall i :: 0 <= i < |rows| ==> column < |rows[i]| && |rows[i][column]| <= w
  {
  }

  /** `align_table` on any cells: every text on its side in a column as wide as its longest text. */
  lemma AlignedTable(header: seq<string>, rows: seq<seq<string>>, aligns: seq<Align>)
    requires |aligns| == |header| > 0 && Rectangular(rows, |header|)
    ensures AlignTable(header, rows, aligns).Some?
    ensures IsTable(AlignTable(header, rows, aligns).value, header, rows, aligns)
  {
    hide RowLine;
    hide DelimLine;
    hide Widths;
    hide Rendered;
    hide DelimRendered;
    hide IsLongest;
    var widths := Widths(header, rows);
    WidthsFit(header, rows);
    RowRendered(header, aligns, widths);
    DelimIsRendered(aligns, widths);
    var out := AlignTable(header, rows, aligns).value;
    assert out[0] == RowLine(header, aligns, widths, PAD) && out[1] == DelimLine(aligns, widths, PAD);
    forall i | 0 <= i < |rows| ensures Rendered(out[2 + i], rows[i], aligns, widths) {
      RowRendered(rows[i], aligns, widths);
      assert out[2 + i] == RowLines(rows, aligns, widths)[i];
    }
    assert HasColumns(out, header, rows, aligns, widths);
  }

  /** Formatting at a header line with a pipe and a delimiter row behind it: the table of these lines and of the lines
      after them that start with a pipe, and then the lines that follow. */
  lemma FormatsTable(lines: seq<string>, n: nat)
    requires |lines| >= n + 2 && '|' in lines[0] && IsDelimRow(lines[1])
    requires forall i :: 2 <= i < n + 2 ==> Strip(lines[i]) != [] && Strip(lines[i])[0] == '|'
    requires n + 2 < |lines| ==> Strip(lines[n + 2]) == [] || Strip(lines[n + 2])[0] != '|'
    ensures FormatLines(lines).Some? ==>
              var out, header := FormatLines(lines).value, SplitRow(lines[0]);
              && |out| >= n + 2 && FormatLines(lines[n + 2..]) == Some(out[n + 2..])
              && exists aligns: seq<Align> ::
                   && |aligns| == |header| && SaysAligns(SplitRow(lines[1]), aligns)
                   && IsTable(out[..n + 2], header, SplitRows(lines[2..n + 2]), aligns)
  {
    hide SplitRow;
    hide IsDelimRow;
    hide AlignTable;
    hide Alignments;
    hide IsTable;
    hide SaysAligns;
    BodyIs(lines[2..], n);
    assert lines[2..][..n] == lines[2..n + 2];
    if FormatLines(lines).Some? {
      var header, delim, rows := SplitRow(lines[0]), SplitRow(lines[1]), SplitRows(lines[2..n + 2]);
      var aligns := Alignments(header, delim);
      AlignsSaid(header, lines[1]);
      var t := AlignTable(header, rows, aligns);
      assert FormatTable(lines) == t;
      AlignedTable(header, rows, aligns);
      var out := FormatLines(lines).value;
      assert out == t.value + FormatLines(lines[n + 2..]).value;
      assert out[..n + 2] == t.value && out[n + 2..] == FormatLines(lines[n + 2..]).value;
    }
  }

  lemma {:induction false} BodyIs(lines: seq<string>, n: nat)
    requires n <= |lines| && forall i :: 0 <= i < n ==> StartsWithPipe(lines[i])
    requires n < |lines| ==> !StartsWithPipe(lines[n])
    ensures BodyLength(lines) == n
    decreases n
  {
    hide StartsWithPipe;
    if n > 0 {
      BodyIs(lines[1..], n - 1);
    }
  }

  lemma AlignsSaid(header: seq<string>, line: string)
    ensures SaysAligns(SplitRow(line), Alignments(header, SplitRow(line)))
  {
    hide SplitRow;
    hide SaysAlign;
    hide ParseDelimiter;
    hide IsCell;
    SplitRowCells(line);
    var delim := SplitRow(line);
    forall j | 0 <= j < |delim| ensures SaysAlign(delim[j], ParseDelimiter(delim[j])) {
      AlignSaid(delim[j]);
    }
  }

  lemma AlignSaid(cell: string)
    requires IsCell(cell)
    ensures SaysAlign(cell, ParseDelimiter(cell))
  {
    hide Strip;
    StripStripped(cell);
  }

  // ---- Lines that stay -----------------------------------------------------------------------------

  /** Formatting keeps the number of lines, and every line that has no pipe and is no delimiter row. */
  lemma {:induction false} OtherLinesStay(lines: seq<string>, i: nat)
    requires FormatLines(lines).Some?
    ensures |FormatLines(lines).value| == |lines|
    ensures i < |lines| && '|' !in lines[i] && !IsDelimRow(lines[i]) ==> FormatLines(lines).value[i] == lines[i]
    decreases |lines|
  {
    hide IsDelimRow;
    hide FormatTable;
    if lines == [] {
    } else if TableAt(lines) {
      var n := 2 + BodyLength(lines[2..]);
      OtherLinesStay(lines[n..], if i >= n then i - n else 0);
      if 2 <= i < n {
        BodyPiped(lines[2..], i - 2);
      }
    } else {
      OtherLinesStay(lines[1..], if i > 0 then i - 1 else 0);
    }
  }

  lemma {:induction false} BodyPiped(lines: seq<string>, i: nat)
    requires i < BodyLength(lines)
    ensures '|' in lines[i]
    decreases i
  {
    hide Strip;
    if i > 0 {
      BodyPiped(lines[1..], i - 1);
    } else {
      PipeIn(lines[0]);
    }
  }

  lemma PipeIn(line: string)
    requires StartsWithPipe(line)
    ensures '|' in line
  {
    hide Strip;
    StripParts(line);
    var a, b :| Blank(a) && Blank(b) && line == a + Strip(line) + b;
    assert line[|a|] == Strip(line)[0];
  }

  /** Lines of which none is a header before a delimiter row stay as they are. */
  lemma {:induction false} NoTableStays(lines: seq<string>)
    requires forall i :: 0 <= i < |lines| - 1 && '|' in lines[i] ==> !IsDelimRow(lines[i + 1])
    ensures FormatLines(lines) == Some(lines)
    decreases |lines|
  {
    hide IsDelimRow;
    if lines != [] {
      forall i | 0 <= i < |lines[1..]| - 1 && '|' in lines[1..][i] ensures !IsDelimRow(lines[1..][i + 1]) {
        assert '|' in lines[i + 1];
      }
      NoTableStays(lines[1..]);
      assert [lines[0]] + lines[1..] == lines;
    }
  }

  // ---- Columns line up ---------------------------------------------------------------------------

  lemma {:induction false} StartsAgree(a: seq<nat>, b: seq<nat>, j: nat)
    requires |a| == |b| && j <= |a|
    requires forall k :: 0 <= k < |a| ==> a[k] <= b[k]
    ensures ColumnStart(a, j) <= ColumnStart(b, j)
    ensures ColumnStart(a, j) == ColumnStart(b, j) <==> forall k :: 0 <= k < j ==> a[k] == b[k]
  {
    if j > 0 {
      StartsAgree(a, b, j - 1);
    }
  }

  /** Two rows of a table have each column at the same place; the delimiter row has it there too if and only if every
      column before it is at least three characters wide. */
  lemma ColumnsLineUp(xs: seq<string>, ys: seq<string>, zs: seq<string>, aligns: seq<Align>, widths: seq<nat>, j: nat)
    requires |xs| == |ys| == |zs| == |aligns| == |widths| && j < |widths|
    requires forall k :: 0 <= k < |widths| ==>
                           |xs[k]| == |ys[k]| == widths[k] + 4 && Dashed(zs[k], aligns[k], widths[k])
    ensures ColumnStart(Lengths(xs), j) == ColumnStart(Lengths(ys), j)
    ensures ColumnStart(Lengths(xs), j) == ColumnStart(Lengths(zs), j) <==> forall k :: 0 <= k < j ==> widths[k] >= 3
  {
    hide ColumnStart;
    assert Lengths(xs) == Lengths(ys);
    forall k | 0 <= k < |widths|
      ensures Lengths(xs)[k] <= Lengths(zs)[k] && (Lengths(xs)[k] == Lengths(zs)[k] <==> widths[k] >= 3)
    {
      assert Dashed(zs[k], aligns[k], widths[k]);
    }
    StartsAgree(Lengths(xs), Lengths(zs), j);
  }

  // ---- Texts -----------------------------------------------------------------------------------------

  /** What ends a line: line feed, carriage return, both, vertical tab, form feed, the three separators, next line,
      line separator and paragraph separator. */
  const LINE_ENDS: seq<string> := ["\n", "\r", "\r\n", "\U{B}", "\U{C}", "\U{1C}", "\U{1D}", "\U{1E}", "\U{85}",
                                   "\U{2028}", "\U{2029}"]

  /** A text without any of these. */
  predicate OneLine(line: string) {
    forall i :: 0 <= i < |line| ==> [line[i]] !in LINE_ENDS
  }

  lemma OneLineNoBreak(line: string)
    requires OneLine(line)
    ensures NoBreak(line)
  {
    forall i | 0 <= i < |line| ensures !IsBreak(line[i]) {
      if IsBreak(line[i]) {
        BreakListed(line[i]);
      }
    }
  }

  lemma BreakListed(c: char)
    requires IsBreak(c)
    ensures [c] in LINE_ENDS
  {
    var ends := LINE_ENDS;
    assert [c] == ends[0] || [c] == ends[1] || [c] == ends[3] || [c] == ends[4] || [c] == ends[5] || [c] == ends[6]
           || [c] == ends[7] || [c] == ends[8] || [c] == ends[9] || [c] == ends[10];
  }

  lemma {:induction false} LengthBefore(line: string, c: char, rest: string)
    requires NoBreak(line) && IsBreak(c)
    ensures LineLength(line + [c] + rest) == |line|
    decreases |line|
  {
    var text := line + [c] + rest;
    if line == [] {
      assert text[0] == c;
    } else {
      assert text[0] == line[0] && text[1..] == line[1..] + [c] + rest;
      LengthBefore(line[1..], c, rest);
    }
  }

  lemma EndShape(end: string)
    requires end in LINE_ENDS
    ensures end != [] && IsBreak(end[0]) && (|end| == 1 || end == "\r\n")
  {
  }

  /** A line ends at each of these, a carriage return and a line feed together ending one line. */
  lemma LineEnds(line: string, end: string, rest: string)
    requires OneLine(line) && end in LINE_ENDS && (end == "\r" && rest != [] ==> rest[0] != '\n')
    ensures SplitLines(line + end + rest) == [line] + SplitLines(rest)
    ensures SplitLines(line) == if line == [] then [] else [line]
  {
    hide LineLength;
    OneLineNoBreak(line);
    EndShape(end);
    Regrouped(line, end, rest);
    LengthBefore(line, end[0], end[1..] + rest);
    WholeLine(line);
    LineCut(line, end, rest);
  }

  lemma Regrouped(line: string, end: string, rest: string)
    requires end != []
    ensures line + end + rest == line + [end[0]] + (end[1..] + rest)
  {
  }

  lemma LineCut(line: string, end: string, rest: string)
    requires LineLength(line + end + rest) == |line| && end != [] && (|end| == 1 || end == "\r\n")
    requires end == "\r" && rest != [] ==> rest[0] != '\n'
    ensures SplitLines(line + end + rest) == [line] + SplitLines(rest)
  {
    hide LineLength;
    hide BreakLength;
    hide SplitLines;
    var text := line + end + rest;
    CutAt(line, end, rest);
    AfterBreak(end, rest);
    FirstLineCut(text);
  }

  lemma CutAt(line: string, end: string, rest: string)
    ensures (line + end + rest)[..|line|] == line && (line + end + rest)[|line|..] == end + rest
  {
  }

  lemma AfterBreak(end: string, rest: string)
    requires end != [] && (|end| == 1 || end == "\r\n") && (end == "\r" && rest != [] ==> rest[0] != '\n')
    ensures BreakLength(end + rest) == |end| && (end + rest)[|end|..] == rest
  {
  }

  lemma FirstLineCut(text: string)
    requires LineLength(text) < |text|
    ensures var n := LineLength(text);
            SplitLines(text) == [text[..n]] + SplitLines(text[n..][BreakLength(text[n..])..])
  {
  }

  /** A text of lines is formatted as its lines are, and ends with a newline if it did. */
  lemma FormatOfLines(lines: seq<string>)
    requires lines != [] && NoBreaks(lines)
    ensures Format(Join(lines, "\n") + "\n")
         == if FormatLines(lines).Some? then Some(Join(FormatLines(lines).value, "\n") + "\n") else None
    ensures lines[|lines| - 1] != [] ==>
              Format(Join(lines, "\n"))
              == if FormatLines(lines).Some? then Some(Join(FormatLines(lines).value, "\n")) else None
  {
    hide SplitLines;
    hide FormatLines;
    hide NoBreaks;
    hide Join;
    LinesBack(lines);
    JoinEndsWithNewline(lines);
    var text := Join(lines, "\n") + "\n";
    assert text[|text| - 1] == '\n';
    if FormatLines(lines).Some? {
      OtherLinesStay(lines, 0);
      var joined := Join(FormatLines(lines).value, "\n");
      assert joined + "" == joined;
    }
  }

  /** A text in which no line with a pipe stands before a delimiter row stays as it is. */
  lemma TextStays(lines: seq<string>)
    requires lines != [] && NoBreaks(lines)
    requires forall i :: 0 <= i < |lines| - 1 && '|' in lines[i] ==> !IsDelimRow(lines[i + 1])
    ensures Format(Join(lines, "\n") + "\n") == Some(Join(lines, "\n") + "\n")
    ensures lines[|lines| - 1] != [] ==> Format(Join(lines, "\n")) == Some(Join(lines, "\n"))
  {
    hide Format;
    hide FormatLines;
    hide IsDelimRow;
    hide NoBreaks;
    NoTableStays(lines);
    FormatOfLines(lines);
  }
}
