/** Rows of a pipe table (tools/md_tablefmt.py): splitting, rendering, the delimiter row, and that
    splitting undoes rendering. */
module TableRows {
  import opened TableText

  datatype Align = Left | Center | Right

  // ---- Splitting -----------------------------------------------------------------------

  function StripAll(xs: seq<string>): (r: seq<string>)
    ensures |r| == |xs| && forall i :: 0 <= i < |xs| ==> r[i] == Strip(xs[i])
  {
    seq(|xs|, i requires 0 <= i < |xs| => Strip(xs[i]))
  }

  /** The row without a leading pipe, and without a trailing one that is not escaped. */
  function Inner(s: string): string {
    var t := if s != [] && s[0] == '|' then s[1..] else s;
    if t != [] && t[|t| - 1] == '|' && !(|t| >= 2 && t[|t| - 2] == '\\') then t[..|t| - 1] else t
  }

  /** `_split_row` */
  function SplitRow(line: string): (cells: seq<string>)
    ensures cells != []
  {
    StripAll(SplitPipes(Inner(Strip(line)), false))
  }

  /** What splitting returns: stripped text without bare pipes. */
  predicate IsCell(c: string) {
    Stripped(c) && NoBarePipe(c, false)
  }

  predicate AllCells(cells: seq<string>) {
    forall i :: 0 <= i < |cells| ==> IsCell(cells[i])
  }

  lemma MiddleNoBarePipe(a: string, r: string, b: string)
    requires Blank(a) && NoBarePipe(a + r + b, false)
    ensures NoBarePipe(r, false)
  {
    var s, n := a + r + b, |a|;
    assert forall i :: 0 <= i < |r| ==> r[i] == s[n + i];
    assert n > 0 ==> s[n - 1] == a[n - 1] && IsSpace(a[n - 1]);
    forall i | 0 < i < |r| && r[i] == '|' ensures r[i - 1] == '\\' {
      assert s[n + i] == '|' && s[n + i - 1] == r[i - 1];
    }
  }

  lemma StripNoBarePipe(s: string)
    requires NoBarePipe(s, false)
    ensures NoBarePipe(Strip(s), false)
  {
    hide Strip;
    hide Blank;
    hide NoBarePipe;
    StripParts(s);
    var a, b :| Blank(a) && Blank(b) && s == a + Strip(s) + b;
    MiddleNoBarePipe(a, Strip(s), b);
  }

  lemma SplitRowCells(line: string)
    ensures AllCells(SplitRow(line))
  {
    hide Strip;
    hide Inner;
    hide NoBarePipe;
    var u := Inner(Strip(line));
    PiecesNoBarePipe(u, false);
    var xs := SplitPipes(u, false);
    forall i | 0 <= i < |xs| ensures IsCell(Strip(xs[i])) {
      StripNoBarePipe(xs[i]);
    }
  }

  // ---- Rendering ---------------------------------------------------------------------------

  function Repeat(c: char, n: nat): (r: string)
    ensures |r| == n && forall i :: 0 <= i < n ==> r[i] == c
  {
    seq(n, _ => c)
  }

  function Spaces(n: nat): (r: string)
    ensures |r| == n && Blank(r)
  {
    Repeat(' ', n)
  }

  /** How many spaces `ljust`, `rjust` and `center` put before the text. */
  function LeadOf(len: nat, align: Align, w: nat): (n: nat)
    ensures n <= if w > len then w - len else 0
  {
    var fill := if w > len then w - len else 0;
    match align
    case Left => 0
    case Right => fill
    case Center => fill / 2 + (if fill % 2 == 1 && w % 2 == 1 then 1 else 0)
  }

  /** A cell justified to the width, with `pad` spaces on each side. */
  function Apply(text: string, align: Align, w: nat, pad: nat): (r: string)
    ensures |r| == (if w > |text| then w else |text|) + 2 * pad
  {
    var fill := if w > |text| then w - |text| else 0;
    var lead := LeadOf(|text|, align, w);
    Spaces(pad) + (Spaces(lead) + text + Spaces(fill - lead)) + Spaces(pad)
  }

  function ApplyAll(cells: seq<string>, aligns: seq<Align>, widths: seq<nat>, pad: nat): (r: seq<string>)
    requires |aligns| == |cells| == |widths|
    ensures |r| == |cells|
    ensures forall i :: 0 <= i < |cells| ==> r[i] == Apply(cells[i], aligns[i], widths[i], pad)
  {
    seq(|cells|, i requires 0 <= i < |cells| => Apply(cells[i], aligns[i], widths[i], pad))
  }

  /** `" | ".join(xs).rstrip()` between the outer pipes. */
  function Framed(xs: seq<string>): string
    requires xs != []
  {
    "| " + RStrip(Join(xs, " | ")) + " |"
  }

  /** `row_line` */
  function RowLine(cells: seq<string>, aligns: seq<Align>, widths: seq<nat>, pad: nat): string
    requires |aligns| == |cells| == |widths| && cells != []
  {
    Framed(ApplyAll(cells, aligns, widths, pad))
  }

  // ---- Splitting undoes rendering -------------------------------------------------------------

  /** The pieces hold the cells, each with blanks around it. */
  predicate Padded(xs: seq<string>, cells: seq<string>) {
    && |xs| == |cells|
    && forall i :: 0 <= i < |xs| ==> Strip(xs[i]) == cells[i] && NoBarePipe(xs[i], false)
  }

  lemma StripRStrip(s: string)
    ensures Strip(RStrip(s) + " ") == Strip(s)
  {
    hide Strip;
    var r := RStrip(s);
    RStripParts(s);
    var b := s[|r|..];
    assert s == [] + r + b;
    StripIgnores([], r, b);
    assert r + " " == [] + r + " ";
    StripIgnores([], r, " ");
  }

  lemma PrefixNoBarePipe(s: string, t: string)
    requires NoBarePipe(s, false) && |t| <= |s| && t == s[..|t|]
    ensures NoBarePipe(t + " ", false) && !EndsEscaped(t + " ", false)
  {
    var u := t + " ";
    assert forall i :: 0 <= i < |t| ==> u[i] == s[i];
    forall i | 0 < i < |u| && u[i] == '|' ensures u[i - 1] == '\\' {
      assert s[i] == '|';
    }
  }

  /** One piece and no pipe after it. */
  lemma LastPiece(x: string)
    requires NoBarePipe(x, false)
    ensures StripAll(SplitPipes(RStrip(x) + " ", false)) == [Strip(x)]
  {
    hide Strip;
    var u := RStrip(x) + " ";
    PrefixNoBarePipe(x, RStrip(x));
    assert u + [] == u;
    SplitPrefix(u, [], false);
    assert SplitPipes(u, false) == [u];
    StripRStrip(x);
  }

  /** A piece, a separator and the rest. */
  lemma FirstPiece(x: string, v: string)
    requires NoBarePipe(x, false)
    ensures var p := SplitPipes(v, false);
            SplitPipes(x + " " + "|" + v, false) == [x + " "] + p
  {
    PrefixNoBarePipe(x, x);
    assert x + " " + "|" + v == (x + " ") + ("|" + v);
    SplitPrefix(x + " ", "|" + v, false);
    assert ("|" + v)[1..] == v && ("|" + v)[0] == '|';
    var rest := SplitPipes("|" + v, false);
    assert rest == [[]] + SplitPipes(v, false);
    assert rest[1..] == SplitPipes(v, false);
    assert x + " " + rest[0] == x + " ";
  }

  /** A space before the text goes into the first piece. */
  lemma SpaceBefore(v: string)
    ensures StripAll(SplitPipes(" " + v, false)) == StripAll(SplitPipes(v, false))
  {
    hide Strip;
    SplitPrefix(" ", v, false);
    var p := SplitPipes(v, false);
    assert " " + p[0] == " " + p[0] + [];
    StripIgnores(" ", p[0], []);
  }

  lemma StripSpace(x: string)
    ensures Strip(x + " ") == Strip(x) && Strip(" ") == []
  {
    hide Strip;
    assert x + " " == [] + x + " ";
    StripIgnores([], x, " ");
    assert " " == " " + [] + [];
    StripIgnores(" ", [], []);
    StripStripped([]);
  }

  lemma {:induction false} JoinNotBlank(xs: seq<string>)
    requires |xs| >= 2
    ensures !Blank(Join(xs, " | "))
  {
    var s := Join(xs, " | ");
    assert s[|xs[0]| + 1] == '|';
  }

  lemma BlankStrip(x: string)
    requires Blank(x)
    ensures Strip(x) == []
  {
    hide Strip;
    assert x == x + [] + [];
    StripIgnores(x, [], []);
    StripStripped([]);
  }

  lemma {:induction false} SplitJoined(xs: seq<string>, cells: seq<string>)
    requires xs != [] && Padded(xs, cells)
    ensures StripAll(SplitPipes(RStrip(Join(xs, " | ")) + " ", false)) == cells
    decreases |xs|
  {
    hide Strip;
    hide NoBarePipe;
    hide RStrip;
    hide SplitPipes;
    var x := xs[0];
    if |xs| == 1 {
      LastPiece(x);
    } else {
      var rest := Join(xs[1..], " | ");
      assert x + " | " + rest == (x + " | ") + rest;
      RStripLast(x + " | ", rest);
      StripSpace(x);
      assert Padded(xs[1..], cells[1..]);
      if Blank(rest) {
        TrailingEmpty(xs, cells);
      } else {
        SplitJoined(xs[1..], cells[1..]);
        var v := RStrip(rest) + " ";
        assert (x + " | ") + RStrip(rest) + " " == x + " " + "|" + (" " + v);
        FirstPiece(x, " " + v);
        SpaceBefore(v);
        assert cells == [cells[0]] + cells[1..];
        FirstStripped(x + " ", SplitPipes(" " + v, false));
      }
    }
  }

  lemma FirstStripped(x: string, p: seq<string>)
    ensures StripAll([x] + p) == [Strip(x)] + StripAll(p)
  {
    hide Strip;
  }

  /** Stripping the end leaves the pipe before an empty last cell. */
  lemma PipeStays(x: string, rest: string)
    requires Blank(rest)
    ensures RStrip(x + " | " + rest) + " " == x + " " + "|" + " "
  {
    hide RStrip;
    assert x + " | " + rest == (x + " |") + (" " + rest);
    assert Blank(" " + rest);
    RStripLast(x + " |", " " + rest);
    StripStops(x + " |");
    assert (x + " |") + " " == x + " " + "|" + " ";
  }

  lemma EmptyLast(x: string)
    requires NoBarePipe(x, false)
    ensures StripAll(SplitPipes(x + " " + "|" + " ", false)) == [Strip(x), []]
  {
    hide Strip;
    hide NoBarePipe;
    hide SplitPipes;
    FirstPiece(x, " ");
    OneSpace();
    StripSpace(x);
    FirstStripped(x + " ", [" "]);
  }

  /** The last of two cells is empty. */
  lemma TrailingEmpty(xs: seq<string>, cells: seq<string>)
    requires |xs| >= 2 && Padded(xs, cells) && Blank(Join(xs[1..], " | "))
    ensures StripAll(SplitPipes(RStrip(Join(xs, " | ")) + " ", false)) == cells
  {
    hide Strip;
    hide NoBarePipe;
    hide SplitPipes;
    hide RStrip;
    hide Blank;
    hide StripAll;
    if |xs| > 2 {
      JoinNotBlank(xs[1..]);
      assert false;
    }
    assert Join(xs[1..], " | ") == xs[1];
    PipeStays(xs[0], xs[1]);
    EmptyLast(xs[0]);
    BlankStrip(xs[1]);
    assert cells == [cells[0], cells[1]];
  }

  lemma OneSpace()
    ensures NoBarePipe(" ", false) && SplitPipes(" ", false) == [" "]
  {
    var s := " ";
    assert s[1..] == [];
    SplitOpens(s, false);
    assert [s[0]] + [] == s;
  }

  lemma InnerFramed(xs: seq<string>)
    requires xs != []
    ensures Strip(Framed(xs)) == Framed(xs)
    ensures Inner(Framed(xs)) == " " + (RStrip(Join(xs, " | ")) + " ")
  {
    hide Strip;
    hide RStrip;
    hide Join;
    var r := RStrip(Join(xs, " | "));
    var s := Framed(xs);
    assert s[0] == '|' && s[|s| - 1] == '|';
    StripStripped(s);
    var t := s[1..];
    assert t == " " + r + " |";
    assert t[|t| - 1] == '|' && t[|t| - 2] == ' ';
    assert t[..|t| - 1] == " " + (r + " ");
  }

  /** Splitting a framed row gives the cells back, whatever blanks surround them. */
  lemma SplitFramed(xs: seq<string>, cells: seq<string>)
    requires xs != [] && Padded(xs, cells)
    ensures SplitRow(Framed(xs)) == cells
  {
    hide Strip;
    hide RStrip;
    hide Join;
    hide SplitPipes;
    hide Padded;
    hide Framed;
    hide Inner;
    InnerFramed(xs);
    SplitJoined(xs, cells);
    SpaceBefore(RStrip(Join(xs, " | ")) + " ");
  }

  lemma ApplyPads(c: string, align: Align, w: nat, pad: nat)
    requires IsCell(c)
    ensures Strip(Apply(c, align, w, pad)) == c && NoBarePipe(Apply(c, align, w, pad), false)
  {
    hide Strip;
    hide LeadOf;
    hide NoBarePipe;
    var fill := if w > |c| then w - |c| else 0;
    var lead := LeadOf(|c|, align, w);
    var a, b := Spaces(pad) + Spaces(lead), Spaces(fill - lead) + Spaces(pad);
    assert Apply(c, align, w, pad) == a + c + b;
    BlankBoth(Spaces(pad), Spaces(lead));
    BlankBoth(Spaces(fill - lead), Spaces(pad));
    StripAround(a, c, b);
    BlanksNoPipe(a, c, b);
  }

  lemma BlanksNoPipe(a: string, c: string, b: string)
    requires Blank(a) && Blank(b) && NoBarePipe(c, false)
    ensures NoBarePipe(a + c + b, false)
  {
    var s, n := a + c + b, |a|;
    assert forall i :: 0 <= i < n ==> s[i] == a[i] && s[i] != '|';
    assert forall i :: n + |c| <= i < |s| ==> s[i] == b[i - n - |c|] && s[i] != '|';
    assert forall i :: n <= i < n + |c| ==> s[i] == c[i - n];
  }

  /** For stripped cells without bare pipes, splitting a rendered row returns the cells, for every
      alignment, width and padding. */
  lemma SplitRowLine(cells: seq<string>, aligns: seq<Align>, widths: seq<nat>, pad: nat)
    requires |aligns| == |cells| == |widths| && cells != [] && AllCells(cells)
    ensures SplitRow(RowLine(cells, aligns, widths, pad)) == cells
  {
    hide Strip;
    hide NoBarePipe;
    hide Apply;
    hide SplitRow;
    hide Framed;
    var xs := ApplyAll(cells, aligns, widths, pad);
    forall i | 0 <= i < |xs| ensures Strip(xs[i]) == cells[i] && NoBarePipe(xs[i], false) {
      ApplyPads(cells[i], aligns[i], widths[i], pad);
    }
    SplitFramed(xs, cells);
  }

  // ---- The delimiter row --------------------------------------------------------------------------

  /** `parse_delimiter` */
  function ParseDelimiter(cell: string): Align {
    var c := Strip(cell);
    if c != [] && c[0] == ':' && c[|c| - 1] == ':' then Center
    else if c != [] && c[|c| - 1] == ':' then Right
    else Left
  }

  /** The dashes and colons of one column of the delimiter row. */
  function DelimPart(align: Align, w: nat, pad: nat): string {
    var span := (if w > 3 then w else 3) + 2 * pad;
    match align
    case Center => ":" + Repeat('-', span - 2) + ":"
    case Right => "-" + Repeat('-', span - 2) + ":"
    case Left => "-" + Repeat('-', span - 1)
  }

  function DelimParts(aligns: seq<Align>, widths: seq<nat>, pad: nat): (r: seq<string>)
    requires |aligns| == |widths|
    ensures |r| == |aligns| && forall i :: 0 <= i < |r| ==> r[i] == DelimPart(aligns[i], widths[i], pad)
  {
    seq(|aligns|, i requires 0 <= i < |aligns| => DelimPart(aligns[i], widths[i], pad))
  }

  /** `delim_line` */
  function DelimLine(aligns: seq<Align>, widths: seq<nat>, pad: nat): string
    requires |aligns| == |widths| && aligns != []
  {
    "| " + Join(DelimParts(aligns, widths, pad), " | ") + " |"
  }

  /** `:?-+:?` */
  predicate DashCell(c: string) {
    var a := if c != [] && c[0] == ':' then 1 else 0;
    var b := if c != [] && c[|c| - 1] == ':' then |c| - 1 else |c|;
    a < b && forall i :: a <= i < b ==> c[i] == '-'
  }

  predicate AllDashes(cells: seq<string>) {
    forall i :: 0 <= i < |cells| ==> DashCell(cells[i])
  }

  lemma PartShape(align: Align, w: nat, pad: nat)
    ensures var p := DelimPart(align, w, pad);
            && DashCell(p) && Stripped(p) && |p| >= 3 && p[0] != ' ' && NoBarePipe(p, false) && !Blank(p)
            && Strip(p) == p && ParseDelimiter(p) == align
  {
    var p := DelimPart(align, w, pad);
    assert forall i :: 0 <= i < |p| ==> p[i] == '-' || p[i] == ':';
    assert !IsSpace(p[0]);
    StripStripped(p);
  }

  lemma {:induction false} JoinKeepsEnd(xs: seq<string>)
    requires xs != [] && !Blank(xs[|xs| - 1]) && Stripped(xs[|xs| - 1])
    ensures RStrip(Join(xs, " | ")) == Join(xs, " | ")
    decreases |xs|
  {
    hide RStrip;
    if |xs| == 1 {
      StripStops(xs[0]);
    } else {
      var rest := Join(xs[1..], " | ");
      assert xs[1..][|xs[1..]| - 1] == xs[|xs| - 1];
      JoinKeepsEnd(xs[1..]);
      assert xs[0] + " | " + rest == (xs[0] + " | ") + rest;
      RStripLast(xs[0] + " | ", rest);
      LastNotBlank(xs[1..]);
    }
  }

  lemma {:induction false} LastNotBlank(xs: seq<string>)
    requires xs != [] && !Blank(xs[|xs| - 1])
    ensures !Blank(Join(xs, " | "))
  {
    if |xs| >= 2 {
      JoinNotBlank(xs);
    }
  }

  /** The delimiter row splits into its parts, which say the alignments again. */
  lemma SplitDelimLine(aligns: seq<Align>, widths: seq<nat>, pad: nat)
    requires |aligns| == |widths| && aligns != []
    ensures var parts := DelimParts(aligns, widths, pad);
            && DelimLine(aligns, widths, pad) == Framed(parts)
            && SplitRow(DelimLine(aligns, widths, pad)) == parts && AllDashes(parts)
            && forall i :: 0 <= i < |aligns| ==> ParseDelimiter(parts[i]) == aligns[i]
  {
    hide Strip;
    hide NoBarePipe;
    hide DelimPart;
    hide SplitRow;
    hide ParseDelimiter;
    hide DashCell;
    hide RStrip;
    hide Join;
    var parts := DelimParts(aligns, widths, pad);
    forall i | 0 <= i < |parts|
      ensures && Strip(parts[i]) == parts[i] && NoBarePipe(parts[i], false) && DashCell(parts[i])
              && ParseDelimiter(parts[i]) == aligns[i]
    {
      PartShape(aligns[i], widths[i], pad);
    }
    PartShape(aligns[|aligns| - 1], widths[|aligns| - 1], pad);
    JoinKeepsEnd(parts);
    SplitFramed(parts, parts);
  }
}
