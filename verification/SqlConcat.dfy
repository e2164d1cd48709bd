/** When splitting two files one after the other is splitting them together. */
module SqlConcat {
  import opened Strings
  import opened SqlLexer
  import opened SqlScan
  import opened SqlInvariants

  /** The scanner is where it started, but for collected blanks and finished queries. */
  predicate Ready(s: Scan) {
    s.lx == START && Blank(s.stmt)
  }

  // ---- sufficiency ----------------------------------------------------------------

  /** `s` after earlier queries `q` and a blank `w` still pending. */
  function After(q: seq<string>, w: string, s: Scan): Scan {
    Scan(s.lx, w + s.stmt, q + s.queries)
  }

  lemma PushAfter(q: seq<string>, w: string, s: Scan)
    requires Blank(w)
    ensures Push(q + s.queries, w + s.stmt) == q + Push(s.queries, s.stmt)
  {
    TrimSkipsBlankPrefix(w, s.stmt);
  }

  lemma AbsorbAfter(q: seq<string>, w: string, s: Scan, piece: string, t: Token)
    requires Blank(w)
    ensures Absorb(After(q, w, s), piece, t)
            == After(q, if t.kind.Delimiter? then "" else w, Absorb(s, piece, t))
  {
    PushAfter(q, w, s);
    Assoc(w, s.stmt, piece);
  }

  /** Earlier queries and pending blanks do not influence the scan. */
  lemma {:induction false} ScanAfter(u: string, bol: bool, q: seq<string>, w: string, s: Scan, dollar: bool)
      returns (w': string)
    requires ValidLexer(s.lx) && Blank(w)
    ensures Blank(w')
    ensures ScanText(u, bol, After(q, w, s), dollar) == After(q, w', ScanText(u, bol, s, dollar))
    decreases |u|
  {
    hide NextToken;
    if u == "" {
      w' := w;
    } else {
      var t := NextToken(u, bol, s.lx, dollar);
      NextKeepsValid(u, bol, s.lx, dollar);
      AbsorbAfter(q, w, s, u[..t.len], t);
      w' := ScanAfter(u[t.len..], u[t.len - 1] == '\n', q, if t.kind.Delimiter? then "" else w,
                      Absorb(s, u[..t.len], t), dollar);
    }
  }

  lemma SplitAfter(a: string, b: string, dollar: bool)
    requires a == "" || EndsLine(a)
    ensures var s := ScanText(Terminated(b), true, ScanText(a, true, INIT, dollar), dollar);
            SplitFile(a + b, dollar) == Push(s.queries, s.stmt)
  {
    hide ScanText, NextToken, SplitFile, Terminated;
    FileRefinesText(a + b, dollar);
    TerminatedAppend(a, b);
    ScanLinesOf(a, Terminated(b), INIT, dollar);
  }

  lemma ScanLinesOf(a: string, v: string, s: Scan, dollar: bool)
    requires ValidLexer(s.lx) && (a == "" || EndsLine(a))
    ensures ScanText(a + v, true, s, dollar) == ScanText(v, true, ScanText(a, true, s, dollar), dollar)
  {
    if a == "" {
      assert a + v == v;
    } else {
      ScanTextAppend(a, v, true, s, dollar);
    }
  }

  /** If `a` leaves the scanner ready, `b` is split as if it stood alone. */
  lemma Concatenation(a: string, b: string, dollar: bool)
    requires a == "" || EndsLine(a)
    requires Ready(ScanText(a, true, INIT, dollar))
    ensures SplitFile(a + b, dollar) == SplitFile(a, dollar) + SplitFile(b, dollar)
  {
    var s := ScanText(a, true, INIT, dollar);
    SplitAfter(a, b, dollar);
    FileRefinesText(a, dollar);
    FileRefinesText(b, dollar);
    assert After(s.queries, s.stmt, INIT) == s by {
      assert s.stmt + "" == s.stmt && s.queries + [] == s.queries;
    }
    var w := ScanAfter(Terminated(b), true, s.queries, s.stmt, INIT, dollar);
    PushAfter(s.queries, w, ScanText(Terminated(b), true, INIT, dollar));
  }

  // ---- necessity --------------------------------------------------------------------

  predicate IsPlain(c: char) {
    c !in {'#', '/', '-', '$', '\'', '"', '`'}
  }

  /** A plain character in Normal mode on a short line is collected. */
  lemma PlainKept(u: string, bol: bool, s: Scan, dollar: bool)
    requires ValidLexer(s.lx) && s.lx.mode.Normal?
    requires 0 < |u| < 10 && IsPlain(u[0]) && !StartsWith(u, s.lx.delim)
    ensures ScanText(u, bol, s, dollar) == ScanText(u[1..], u[0] == '\n', s.(stmt := s.stmt + [u[0]]), dollar)
  {
    ShortIsNoCommand(u[..LineLen(u)]);
    assert u[..1] == [u[0]];
  }

  lemma DelimiterPushes(u: string, bol: bool, s: Scan, dollar: bool)
    requires ValidLexer(s.lx) && s.lx.mode.Normal?
    requires |u| < 10 && StartsWith(u, s.lx.delim)
    ensures ScanText(u, bol, s, dollar)
            == ScanText(u[|s.lx.delim|..], false, Scan(s.lx, "", Push(s.queries, s.stmt)), dollar)
  {
    var d := s.lx.delim;
    ShortIsNoCommand(u[..LineLen(u)]);
    assert u[|d| - 1] == d[|d| - 1];
  }

  /** A last newline in Normal mode is collected and trimmed away again. */
  lemma LastNewline(bol: bool, s: Scan, dollar: bool)
    requires ValidLexer(s.lx) && s.lx.mode.Normal?
    ensures var r := ScanText("\n", bol, s, dollar);
            Push(r.queries, r.stmt) == Push(s.queries, s.stmt)
  {
    assert !StartsWith("\n", s.lx.delim) by {
      assert s.lx.delim[0] != "\n"[0];
    }
    PlainKept("\n", bol, s, dollar);
    TrimSkipsBlankSuffix(s.stmt, "\n");
  }

  function Pushed(s: Scan): nat {
    |Push(s.queries, s.stmt)|
  }

  /** A single letter in Normal mode makes at most one query of what is pending. */
  lemma OneLetterNormal(c: char, bol: bool, s: Scan, dollar: bool)
    requires ValidLexer(s.lx) && s.lx.mode.Normal? && IsPlain(c) && !IsTrimChar(c)
    ensures Pushed(ScanText([c, '\n'], bol, s, dollar))
            == if s.lx.delim == [c] then Pushed(s) else |s.queries| + 1
  {
    var u := [c, '\n'];
    assert u[1..] == "\n";
    if s.lx.delim == [c] {
      assert u[..1] == [c];
      DelimiterPushes(u, bol, s, dollar);
      LastNewline(false, Scan(s.lx, "", Push(s.queries, s.stmt)), dollar);
    } else {
      assert !StartsWith(u, s.lx.delim) by {
        if StartsWith(u, s.lx.delim) {
          PrefixEnds(u, s.lx.delim);
        }
      }
      PlainKept(u, bol, s, dollar);
      var s' := s.(stmt := s.stmt + [c]);
      LastNewline(false, s', dollar);
      GrowKeepsInk(s.stmt, [c]);
    }
  }

  /** Two letters around a semicolon: two queries only if the delimiter is ";". */
  lemma LetterSemicolonLetter(c: char, s: Scan, dollar: bool)
    requires ValidLexer(s.lx) && s.lx.mode.Normal? && IsPlain(c) && !IsTrimChar(c)
    requires s.lx.delim[0] != c && Blank(s.stmt)
    ensures Pushed(ScanText([c, ';', c, '\n'], true, s, dollar))
            == |s.queries| + if s.lx.delim == ";" then 2 else 1
  {
    var d := s.lx.delim;
    var u0, u1, u2 := [c, ';', c, '\n'], [';', c, '\n'], [c, '\n'];
    assert u0[1..] == u1 && u1[1..] == u2 && u1[2..] == "\n";
    assert !StartsWith(u0, d) by { assert d[0] != u0[0]; }
    PlainKept(u0, true, s, dollar);
    var s1 := s.(stmt := s.stmt + [c]);
    GrowKeepsInk(s.stmt, [c]);
    if StartsWith(u1, d) {
      DelimiterPushes(u1, false, s1, dollar);
      var s2 := Scan(s.lx, "", Push(s.queries, s1.stmt));
      PrefixEnds(u1, d);
      if |d| == 1 {
        OneLetterNormal(c, false, s2, dollar);
      } else {
        assert |d| == 2 && u1[|d|..] == "\n";
        LastNewline(false, s2, dollar);
      }
    } else {
      assert d != ";" by { assert u1[..1] == ";"; }
      PlainKept(u1, false, s1, dollar);
      OneLetterNormal(c, false, s1.(stmt := s1.stmt + ";"), dollar);
    }
  }

  /** Outside Normal mode one letter cannot finish a statement. */
  lemma OneLetterElsewhere(c: char, s: Scan, dollar: bool)
    requires ValidLexer(s.lx) && !s.lx.mode.Normal? && !s.lx.mode.LineComment?
    requires c !in {'\\', '\'', '"', '`', '$', '*', '\n'}
    ensures var r := ScanText([c, '\n'], true, s, dollar);
            r.queries == s.queries && (s.lx.mode.BlockComment? ==> r == s)
  {
    var u := [c, '\n'];
    assert u[1..] == "\n" && u[..1] == [c] && "\n"[1..] == "";
    assert NextToken(u, true, s.lx, dollar).len == 1;
    assert NextToken("\n", false, s.lx, dollar).len == 1;
    var s1 := Absorb(s, [c], NextToken(u, true, s.lx, dollar));
    assert ScanText(u, true, s, dollar) == ScanText("\n", false, s1, dollar);
    assert s1.lx == s.lx;
  }

  /** A second file that is split differently after `a` than alone. */
  function Witness(s: Scan): string {
    if s.lx.mode.Normal? && Blank(s.stmt) then
      if s.lx.delim != "" && s.lx.delim[0] == 'a' then "b;b" else "a;a"
    else "x"
  }

  lemma WitnessAlone(s: Scan, dollar: bool)
    ensures |SplitFile(Witness(s), dollar)| == if s.lx.mode.Normal? && Blank(s.stmt) then 2 else 1
  {
    hide NextToken, SplitFile, Trim;
    var b := Witness(s);
    FileRefinesText(b, dollar);
    if b == "x" {
      assert b + "\n" == ['x', '\n'];
      OneLetterNormal('x', true, INIT, dollar);
    } else {
      assert b + "\n" == [b[0], ';', b[0], '\n'];
      LetterSemicolonLetter(b[0], INIT, dollar);
    }
  }

  lemma WitnessTells(s: Scan, dollar: bool)
    requires Inv(s, dollar) && !s.lx.mode.LineComment? && !Ready(s)
    ensures Pushed(ScanText(Witness(s) + "\n", true, s, dollar))
            != Pushed(s) + if s.lx.mode.Normal? && Blank(s.stmt) then 2 else 1
  {
    hide ScanText;
    var b := Witness(s);
    if s.lx.mode.Normal? && Blank(s.stmt) {
      assert b + "\n" == [b[0], ';', b[0], '\n'];
      LetterSemicolonLetter(b[0], s, dollar);
    } else {
      assert b + "\n" == ['x', '\n'];
      if s.lx.mode.Normal? {
        OneLetterNormal('x', true, s, dollar);
      } else {
        OneLetterElsewhere('x', s, dollar);
      }
    }
  }

  lemma WitnessAfter(a: string, dollar: bool)
    requires a == "" || EndsLine(a)
    requires !Ready(ScanText(a, true, INIT, dollar))
    ensures var b := Witness(ScanText(a, true, INIT, dollar));
            |SplitFile(a + b, dollar)| != |SplitFile(a, dollar)| + |SplitFile(b, dollar)|
  {
    hide ScanText, SplitFile, Trim;
    var s := ScanText(a, true, INIT, dollar);
    var b := Witness(s);
    ReachableStates(a, dollar);
    SplitAfter(a, b, dollar);
    WitnessAlone(s, dollar);
    WitnessTells(s, dollar);
    assert Terminated(b) == b + "\n";
  }

  /**
   Exactly the files that leave the scanner ready can be put in front of any
   other file without changing what either of them is split into.
   */
  lemma ConcatenationExact(a: string, dollar: bool)
    requires a == "" || EndsLine(a)
    ensures Ready(ScanText(a, true, INIT, dollar))
            <==> forall b: string :: SplitFile(a + b, dollar) == SplitFile(a, dollar) + SplitFile(b, dollar)
  {
    if Ready(ScanText(a, true, INIT, dollar)) {
      forall b: string
        ensures SplitFile(a + b, dollar) == SplitFile(a, dollar) + SplitFile(b, dollar)
      {
        Concatenation(a, b, dollar);
      }
    } else {
      WitnessAfter(a, dollar);
    }
  }

  // ---- blank lines -------------------------------------------------------------------

  lemma BlankLineIsNoCommand(line: string)
    requires Blank(line)
    ensures DelimiterCommand(line).None?
  {
  }

  lemma BlankCharStep(u: string, s: Scan, dollar: bool)
    requires ValidLexer(s.lx) && u != "" && Blank(u)
    ensures var t := LexOne(u, s.lx, dollar);
            && t.len == 1 && t.next.delim == s.lx.delim && !t.kind.Delimiter?
            && (t.next.mode == s.lx.mode || (s.lx.mode.LineComment? && t.next.mode.Normal?))
  {
    if StartsWith(u, s.lx.delim) {
      PrefixEnds(u, s.lx.delim);
    }
  }

  /** Blank lines finish no statement and add blanks at most. */
  lemma {:induction false} ScanBlank(u: string, s: Scan, dollar: bool)
    requires ValidLexer(s.lx) && Blank(u)
    ensures var r := ScanLine(u, s, dollar);
            r.queries == s.queries && Push(r.queries, r.stmt) == Push(s.queries, s.stmt)
    decreases |u|
  {
    if u != "" {
      BlankCharStep(u, s, dollar);
      LexKeepsValid(u, s.lx, dollar);
      var s' := Absorb(s, u[..1], LexOne(u, s.lx, dollar));
      TrimSkipsBlankSuffix(s.stmt, u[..1]);
      ScanBlank(u[1..], s', dollar);
    }
  }

  lemma {:induction false} ScanBlankLines(lines: seq<string>, s: Scan, dollar: bool)
    requires ValidLexer(s.lx) && NoNewline(lines)
    requires forall i | 0 <= i < |lines| :: Blank(lines[i])
    ensures var r := ScanLines(lines, s, dollar);
            Push(r.queries, r.stmt) == Push(s.queries, s.stmt)
  {
    if lines != [] {
      BlankLineIsNoCommand(lines[0]);
      ScanBlank(lines[0] + "\n", s, dollar);
      ScanBlankLines(lines[1..], LineStep(lines[0], s, dollar), dollar);
    }
  }

  lemma BlankListChangesNothing(lines: seq<string>, blanks: seq<string>, dollar: bool)
    requires NoNewline(lines) && NoNewline(blanks)
    requires forall i | 0 <= i < |blanks| :: Blank(blanks[i])
    ensures NoNewline(lines + blanks)
    ensures SplitLines(lines + blanks, dollar) == SplitLines(lines, dollar)
  {
    ScanLinesAppend(lines, blanks, INIT, dollar);
    ScanBlankLines(blanks, ScanLines(lines, INIT, dollar), dollar);
  }

  lemma {:induction false} BlankTextHasBlankLines(b: string)
    requires Blank(b)
    ensures forall line | line in GetLines(b) :: Blank(line)
  {
    if b != "" {
      BlankTextHasBlankLines(b[LineEnd(b)..]);
    }
  }

  /** Appending blank lines to any file changes nothing, whatever state the file leaves the scanner in. */
  lemma BlankLinesChangeNothing(f: string, b: string, dollar: bool)
    requires Blank(b)
    ensures SplitFile(Terminated(f) + b, dollar) == SplitFile(f, dollar)
  {
    hide SplitLines, GetLines;
    GetLinesHaveNoNewline(f);
    GetLinesHaveNoNewline(b);
    GetLinesTerminated(f);
    GetLinesAppend(Terminated(f), b);
    BlankTextHasBlankLines(b);
    BlankListChangesNothing(GetLines(f), GetLines(b), dollar);
  }
}
