/** Text helpers of the table formatter (tools/md_tablefmt.py): whitespace, stripping, splitting on pipes
    and joining, as Python does them on strings. */
module TableText {

  /** `str.isspace` for one character. */
  predicate IsSpace(c: char) {
    var k := c as int;
    || 0x09 <= k <= 0x0d || 0x1c <= k <= 0x20 || k == 0x85 || k == 0xa0 || k == 0x1680
    || 0x2000 <= k <= 0x200a || k == 0x2028 || k == 0x2029 || k == 0x202f || k == 0x205f || k == 0x3000
  }

  predicate Blank(s: string) {
    forall i :: 0 <= i < |s| ==> IsSpace(s[i])
  }

  function LStrip(s: string): (r: string)
    ensures r == [] || !IsSpace(r[0])
    ensures |r| <= |s| && r == s[|s| - |r|..]
  {
    if s == [] || !IsSpace(s[0]) then s else LStrip(s[1..])
  }

  function RStrip(s: string): (r: string)
    ensures r == [] || !IsSpace(r[|r| - 1])
    ensures |r| <= |s| && r == s[..|r|]
  {
    if s == [] || !IsSpace(s[|s| - 1]) then s else RStrip(s[..|s| - 1])
  }

  /** `str.strip` */
  function Strip(s: string): (r: string)
    ensures Stripped(r)
  {
    var r := RStrip(LStrip(s));
    LStripRStrip(s);
    r
  }

  predicate Stripped(s: string) {
    s == [] || (!IsSpace(s[0]) && !IsSpace(s[|s| - 1]))
  }

  lemma LStripRStrip(s: string)
    ensures Stripped(RStrip(LStrip(s)))
  {
    var l := LStrip(s);
    var r := RStrip(l);
    if r != [] {
      assert r[0] == l[0];
    }
  }

  lemma StripStripped(s: string)
    requires Stripped(s)
    ensures Strip(s) == s
  {
  }

  /** Stripping takes blanks off both ends and nothing else. */
  lemma StripParts(s: string)
    ensures exists a, b :: Blank(a) && Blank(b) && s == a + Strip(s) + b
  {
    hide LStrip;
    hide RStrip;
    hide IsSpace;
    hide Blank;
    LStripParts(s);
    var l := LStrip(s);
    RStripParts(l);
    var a := s[..|s| - |l|];
    var b := l[|RStrip(l)|..];
    assert s == a + l && l == RStrip(l) + b;
    assert s == a + Strip(s) + b;
    assert Blank(a) && Blank(b);
  }

  lemma {:induction false} LStripParts(s: string)
    ensures Blank(s[..|s| - |LStrip(s)|])
  {
    if s != [] && IsSpace(s[0]) {
      LStripParts(s[1..]);
      var n := |s| - |LStrip(s)|;
      assert s[..n] == [s[0]] + s[1..][..n - 1];
    }
  }

  lemma {:induction false} RStripParts(s: string)
    ensures Blank(s[|RStrip(s)|..])
  {
    if s != [] && IsSpace(s[|s| - 1]) {
      var t := s[..|s| - 1];
      RStripParts(t);
      assert s[|RStrip(t)|..] == t[|RStrip(t)|..] + [s[|s| - 1]];
    }
  }

  lemma {:induction false} LStripBlank(a: string, s: string)
    requires Blank(a)
    ensures LStrip(a + s) == LStrip(s)
  {
    if a == [] {
      assert a + s == s;
    } else {
      assert (a + s)[0] == a[0] && (a + s)[1..] == a[1..] + s;
      LStripBlank(a[1..], s);
    }
  }

  lemma {:induction false} RStripBlank(s: string, b: string)
    requires Blank(b)
    ensures RStrip(s + b) == RStrip(s)
    decreases |b|
  {
    if b == [] {
      assert s + b == s;
    } else {
      var n := |b| - 1;
      assert (s + b)[|s + b| - 1] == b[n] && (s + b)[..|s + b| - 1] == s + b[..n];
      RStripBlank(s, b[..n]);
    }
  }

  /** The right end is stripped within the last part, if that is not blank. */
  lemma {:induction false} RStripLast(a: string, b: string)
    ensures RStrip(a + b) == if Blank(b) then RStrip(a) else a + RStrip(b)
    decreases |b|
  {
    if Blank(b) {
      RStripBlank(a, b);
    } else {
      var n := |b| - 1;
      assert (a + b)[|a + b| - 1] == b[n];
      if IsSpace(b[n]) {
        assert (a + b)[..|a + b| - 1] == a + b[..n];
        assert b == b[..n] + [b[n]];
        RStripLast(a, b[..n]);
      }
    }
  }

  lemma StripStops(s: string)
    ensures s == [] || !IsSpace(s[0]) ==> LStrip(s) == s
    ensures s == [] || !IsSpace(s[|s| - 1]) ==> RStrip(s) == s
  {
  }

  lemma StripBlank(s: string)
    requires Blank(s)
    ensures LStrip(s) == []
  {
    LStripBlank(s, []);
    assert s + [] == s;
  }

  /** Blanks around a stripped text. */
  lemma StripAround(a: string, s: string, b: string)
    requires Blank(a) && Blank(b) && Stripped(s)
    ensures Strip(a + s + b) == s
  {
    hide LStrip;
    hide RStrip;
    hide IsSpace;
    assert a + s + b == a + (s + b);
    LStripBlank(a, s + b);
    if s == [] {
      assert s + b == b;
      StripBlank(b);
      StripStops([]);
    } else {
      assert (s + b)[0] == s[0];
      StripStops(s + b);
      RStripBlank(s, b);
      StripStops(s);
    }
  }

  lemma BlankBoth(a: string, b: string)
    requires Blank(a) && Blank(b)
    ensures Blank(a + b)
  {
  }

  /** Any blanks around a text do not matter. */
  lemma StripIgnores(a: string, s: string, b: string)
    requires Blank(a) && Blank(b)
    ensures Strip(a + s + b) == Strip(s)
  {
    hide Strip;
    hide Blank;
    StripParts(s);
    var x, y :| Blank(x) && Blank(y) && s == x + Strip(s) + y;
    assert a + s + b == (a + x) + Strip(s) + (y + b);
    BlankBoth(a, x);
    BlankBoth(y, b);
    StripAround(a + x, Strip(s), y + b);
  }

  // ---- Pipes -------------------------------------------------------------------------

  /** `re.split` on pipes without a backslash before them; `escaped` tells whether a backslash came last. */
  function SplitPipes(s: string, escaped: bool): (r: seq<string>)
    ensures r != []
  {
    if s == [] then [[]]
    else if s[0] == '|' && !escaped then [[]] + SplitPipes(s[1..], false)
    else
      var rest := SplitPipes(s[1..], s[0] == '\\');
      [[s[0]] + rest[0]] + rest[1..]
  }

  /** Every pipe has a backslash before it. */
  predicate NoBarePipe(s: string, escaped: bool) {
    && (s != [] && s[0] == '|' ==> escaped)
    && (forall i :: 0 < i < |s| && s[i] == '|' ==> s[i - 1] == '\\')
  }

  function EndsEscaped(s: string, escaped: bool): bool {
    if s == [] then escaped else s[|s| - 1] == '\\'
  }

  lemma NoBareTail(s: string, escaped: bool)
    requires s != [] && NoBarePipe(s, escaped)
    ensures NoBarePipe(s[1..], s[0] == '\\')
  {
    var t := s[1..];
    if t != [] && t[0] == '|' {
      assert s[1] == '|';
    }
    forall i | 0 < i < |t| && t[i] == '|' ensures t[i - 1] == '\\' {
      assert s[i + 1] == '|';
    }
  }

  lemma SplitOpens(s: string, escaped: bool)
    requires s != []
    ensures SplitPipes(s, escaped)
         == if s[0] == '|' && !escaped then [[]] + SplitPipes(s[1..], false)
            else
              var rest := SplitPipes(s[1..], s[0] == '\\');
              [[s[0]] + rest[0]] + rest[1..]
  {
  }

  /** Text without bare pipes goes into the first piece. */
  lemma {:induction false} SplitPrefix(a: string, b: string, escaped: bool)
    requires NoBarePipe(a, escaped)
    ensures var rest := SplitPipes(b, EndsEscaped(a, escaped));
            SplitPipes(a + b, escaped) == [a + rest[0]] + rest[1..]
    decreases |a|
  {
    var rest := SplitPipes(b, EndsEscaped(a, escaped));
    if a == [] {
      assert a + b == b && a + rest[0] == rest[0];
      assert [rest[0]] + rest[1..] == rest;
    } else {
      assert (a + b)[0] == a[0] && (a + b)[1..] == a[1..] + b;
      NoBareTail(a, escaped);
      SplitPrefix(a[1..], b, a[0] == '\\');
      assert EndsEscaped(a[1..], a[0] == '\\') == EndsEscaped(a, escaped);
      var inner := SplitPipes(a[1..] + b, a[0] == '\\');
      assert inner == [a[1..] + rest[0]] + rest[1..];
      assert inner[0] == a[1..] + rest[0] && inner[1..] == rest[1..];
      assert !((a + b)[0] == '|' && !escaped);
      SplitOpens(a + b, escaped);
      assert [a[0]] + (a[1..] + rest[0]) == a + rest[0];
    }
  }

  /** Pieces hold no bare pipe. */
  lemma {:induction false} PiecesNoBarePipe(s: string, escaped: bool)
    ensures var r := SplitPipes(s, escaped);
            && NoBarePipe(r[0], escaped)
            && forall i :: 1 <= i < |r| ==> NoBarePipe(r[i], false)
    decreases |s|
  {
    if s != [] {
      if s[0] == '|' && !escaped {
        PiecesNoBarePipe(s[1..], false);
      } else {
        PiecesNoBarePipe(s[1..], s[0] == '\\');
      }
    }
  }

  /** `sep.join(xs)` */
  function Join(xs: seq<string>, sep: string): (r: string)
    requires xs != []
    decreases |xs|
  {
    if |xs| == 1 then xs[0] else xs[0] + sep + Join(xs[1..], sep)
  }

  /** Joining the pieces gives the text back. */
  lemma {:induction false} JoinSplit(s: string, escaped: bool)
    ensures Join(SplitPipes(s, escaped), "|") == s
    decreases |s|
  {
    var r := SplitPipes(s, escaped);
    if s == [] {
    } else if s[0] == '|' && !escaped {
      JoinSplit(s[1..], false);
      assert r[1..] == SplitPipes(s[1..], false);
      assert [] + "|" + s[1..] == s;
    } else {
      JoinSplit(s[1..], s[0] == '\\');
      var rest := SplitPipes(s[1..], s[0] == '\\');
      assert r[1..] == rest[1..];
      if |rest| == 1 {
        assert [s[0]] + s[1..] == s;
      } else {
        assert [s[0]] + rest[0] + "|" + Join(rest[1..], "|") == [s[0]] + (rest[0] + "|" + Join(rest[1..], "|"));
        assert [s[0]] + s[1..] == s;
      }
    }
  }

  /** Pieces without pipes and backslashes come back from their join. */
  lemma {:induction false} SplitJoin(xs: seq<string>)
    requires xs != [] && forall i :: 0 <= i < |xs| ==> '|' !in xs[i] && '\\' !in xs[i]
    ensures SplitPipes(Join(xs, "|"), false) == xs
    decreases |xs|
  {
    var x := xs[0];
    assert NoBarePipe(x, false) by {
      assert forall i :: 0 <= i < |x| ==> x[i] in x;
    }
    assert !EndsEscaped(x, false) by {
      assert x == [] || x[|x| - 1] in x;
    }
    if |xs| == 1 {
      assert x + [] == x;
      SplitPrefix(x, [], false);
      assert xs == [x];
    } else {
      var more := Join(xs[1..], "|");
      SplitJoin(xs[1..]);
      assert x + "|" + more == x + ("|" + more);
      SplitPrefix(x, "|" + more, false);
      assert ("|" + more)[1..] == more;
      assert x + [] == x;
      assert xs == [x] + xs[1..];
    }
  }
}
