/**
 The scan with its accumulators, in two forms: line by line as the program runs
 it, and over a whole text at once; and the proof that they agree.
 */
module SqlScan {
  import opened Strings
  import opened SqlLexer

  /** Lexer, statement collected so far, statements finished so far. */
  datatype Scan = Scan(lx: Lexer, stmt: string, queries: seq<string>)

  const INIT := Scan(START, "", [])

  function Push(queries: seq<string>, stmt: string): seq<string> {
    if Trim(stmt) == "" then queries else queries + [Trim(stmt)]
  }

  function Absorb(s: Scan, piece: string, t: Token): Scan {
    match t.kind
    case Kept => Scan(t.next, s.stmt + piece, s.queries)
    case Delimiter => Scan(t.next, "", Push(s.queries, s.stmt))
    case Comment => s.(lx := t.next)
    case Command => s.(lx := t.next)
  }

  // ---- over a whole text ------------------------------------------------------

  /** `bol`: the text is at the beginning of a line. */
  function NextToken(u: string, bol: bool, lx: Lexer, dollar: bool): Token
    requires u != ""
  {
    var d := DelimiterCommand(u[..LineLen(u)]);
    if bol && lx.mode.Normal? && d.Some? then Token(Command, LineEnd(u), lx.(delim := d.value))
    else LexOne(u, lx, dollar)
  }

  lemma CommandOnOneLine(line: string)
    requires '\n' !in line
    ensures DelimiterCommand(line).Some? ==> '\n' !in DelimiterCommand(line).value
  {
    var t := Trim(line);
    var d := DelimiterCommand(line);
    if d.Some? && '\n' in d.value {
      TrimAddsNothing(t[|"DELIMITER "|..], '\n');
      TrimAddsNothing(line, '\n');
    }
  }

  lemma NextKeepsValid(u: string, bol: bool, lx: Lexer, dollar: bool)
    requires u != "" && ValidLexer(lx)
    ensures var t := NextToken(u, bol, lx, dollar);
            && 0 < t.len <= |u| && ValidLexer(t.next)
            && forall i | 0 <= i < t.len - 1 :: u[i] != '\n'
  {
    var line := u[..LineLen(u)];
    LexKeepsValid(u, lx, dollar);
    CommandOnOneLine(line);
  }

  function ScanText(u: string, bol: bool, s: Scan, dollar: bool): (r: Scan)
    requires ValidLexer(s.lx)
    ensures ValidLexer(r.lx)
    decreases |u|
  {
    if u == "" then s
    else
      var t := NextToken(u, bol, s.lx, dollar);
      NextKeepsValid(u, bol, s.lx, dollar);
      ScanText(u[t.len..], u[t.len - 1] == '\n', Absorb(s, u[..t.len], t), dollar)
  }

  /** The definition of the scan, unfolded once. */
  lemma TextStep(u: string, bol: bool, s: Scan, dollar: bool)
    requires ValidLexer(s.lx) && u != ""
    ensures var t := NextToken(u, bol, s.lx, dollar);
            && 0 < t.len <= |u| && ValidLexer(t.next)
            && ScanText(u, bol, s, dollar)
               == ScanText(u[t.len..], u[t.len - 1] == '\n', Absorb(s, u[..t.len], t), dollar)
  {
    hide NextToken;
    NextKeepsValid(u, bol, s.lx, dollar);
  }

  /** The statements of a text in which every line is ended by a newline. */
  function SplitText(u: string, dollar: bool): seq<string> {
    var s := ScanText(u, true, INIT, dollar);
    Push(s.queries, s.stmt)
  }

  // ---- line by line -----------------------------------------------------------

  function ScanLine(u: string, s: Scan, dollar: bool): (r: Scan)
    requires ValidLexer(s.lx)
    ensures ValidLexer(r.lx)
    decreases |u|
  {
    if u == "" then s
    else
      var t := LexOne(u, s.lx, dollar);
      LexKeepsValid(u, s.lx, dollar);
      ScanLine(u[t.len..], Absorb(s, u[..t.len], t), dollar)
  }

  function LineStep(line: string, s: Scan, dollar: bool): (r: Scan)
    requires ValidLexer(s.lx) && '\n' !in line
    ensures ValidLexer(r.lx)
  {
    var d := DelimiterCommand(line);
    CommandOnOneLine(line);
    if s.lx.mode.Normal? && d.Some? then s.(lx := s.lx.(delim := d.value))
    else ScanLine(line + "\n", s, dollar)
  }

  function ScanLines(lines: seq<string>, s: Scan, dollar: bool): (r: Scan)
    requires ValidLexer(s.lx) && NoNewline(lines)
    ensures ValidLexer(r.lx)
  {
    if lines == [] then s else ScanLines(lines[1..], LineStep(lines[0], s, dollar), dollar)
  }

  function SplitLines(lines: seq<string>, dollar: bool): seq<string>
    requires NoNewline(lines)
  {
    var s := ScanLines(lines, INIT, dollar);
    Push(s.queries, s.stmt)
  }

  /** The statements of a file. */
  function SplitFile(f: string, dollar: bool): seq<string> {
    GetLinesHaveNoNewline(f);
    SplitLines(GetLines(f), dollar)
  }

  // ---- cutting a scan in two ----------------------------------------------------

  lemma NextLocal(u: string, r: string, bol: bool, lx: Lexer, dollar: bool)
    requires '\n' in u && ValidLexer(lx)
    ensures NextToken(u + r, bol, lx, dollar) == NextToken(u, bol, lx, dollar)
  {
    LineLenLocal(u, r);
    LexLocal(u, r, lx, dollar);
  }

  lemma AppendSlices(u: string, v: string, n: nat)
    requires 0 < n <= |u|
    ensures (u + v)[..n] == u[..n] && (u + v)[n..] == u[n..] + v && (u + v)[n - 1] == u[n - 1]
  {
  }

  lemma ScanTextStep(u: string, v: string, bol: bool, s: Scan, dollar: bool)
    requires '\n' in u && ValidLexer(s.lx)
    ensures var t := NextToken(u, bol, s.lx, dollar);
            && 0 < t.len <= |u| && ValidLexer(t.next)
            && ScanText(u + v, bol, s, dollar)
               == ScanText(u[t.len..] + v, u[t.len - 1] == '\n', Absorb(s, u[..t.len], t), dollar)
  {
    hide NextToken;
    NextLocal(u, v, bol, s.lx, dollar);
    NextKeepsValid(u, bol, s.lx, dollar);
    AppendSlices(u, v, NextToken(u, bol, s.lx, dollar).len);
  }

  /** A scan may be interrupted at the end of any line. */
  lemma {:induction false} ScanTextAppend(u: string, v: string, bol: bool, s: Scan, dollar: bool)
    requires ValidLexer(s.lx) && EndsLine(u)
    ensures ScanText(u + v, bol, s, dollar) == ScanText(v, true, ScanText(u, bol, s, dollar), dollar)
    decreases |u|
  {
    hide NextToken;
    assert u[|u| - 1] in u;
    var t := NextToken(u, bol, s.lx, dollar);
    ScanTextStep(u, v, bol, s, dollar);
    var rest, s' := u[t.len..], Absorb(s, u[..t.len], t);
    if rest == "" {
      assert rest + v == v;
    } else {
      ScanTextAppend(rest, v, u[t.len - 1] == '\n', s', dollar);
    }
  }

  lemma {:induction false} ScanLinesAppend(a: seq<string>, b: seq<string>, s: Scan, dollar: bool)
    requires ValidLexer(s.lx) && NoNewline(a) && NoNewline(b)
    ensures ScanLines(a + b, s, dollar) == ScanLines(b, ScanLines(a, s, dollar), dollar)
  {
    if a == [] {
      assert a + b == b;
    } else {
      assert (a + b)[1..] == a[1..] + b;
      ScanLinesAppend(a[1..], b, LineStep(a[0], s, dollar), dollar);
    }
  }

  // ---- the two forms agree ------------------------------------------------------

  /** Within a line nothing but single tokens is recognised. */
  lemma {:induction false} ScanTextWithinLine(u: string, s: Scan, dollar: bool)
    requires ValidLexer(s.lx) && (u != "" ==> LineLen(u) == |u| - 1)
    ensures ScanText(u, false, s, dollar) == ScanLine(u, s, dollar)
    decreases |u|
  {
    if u != "" {
      var t := LexOne(u, s.lx, dollar);
      LexKeepsValid(u, s.lx, dollar);
      var rest, s' := u[t.len..], Absorb(s, u[..t.len], t);
      if rest != "" {
        assert u[t.len - 1] != '\n';
        LineLenUnique(rest, |rest| - 1);
        ScanTextWithinLine(rest, s', dollar);
      }
    }
  }

  lemma ScanTextLine(line: string, s: Scan, dollar: bool)
    requires ValidLexer(s.lx) && '\n' !in line
    ensures ScanText(line + "\n", true, s, dollar) == LineStep(line, s, dollar)
  {
    var u := line + "\n";
    assert u[|line|] == '\n' && u[..|line|] == line;
    LineLenUnique(u, |line|);
    var t := NextToken(u, true, s.lx, dollar);
    NextKeepsValid(u, true, s.lx, dollar);
    if t.kind.Command? {
      LexKeepsValid(u, s.lx, dollar);
      assert u[t.len..] == "";
    } else {
      ScanTextWithinLine(u, s, dollar);
      var rest := u[t.len..];
      if rest != "" {
        assert u[t.len - 1] != '\n';
      }
    }
  }

  /** Refinement: the line loop computes the scan of the whole text. */
  lemma {:induction false} LinesRefineText(lines: seq<string>, s: Scan, dollar: bool)
    requires ValidLexer(s.lx) && NoNewline(lines)
    ensures ScanLines(lines, s, dollar) == ScanText(Unlines(lines), true, s, dollar)
  {
    if lines != [] {
      var u, rest := lines[0] + "\n", Unlines(lines[1..]);
      ScanTextLine(lines[0], s, dollar);
      ScanTextAppend(u, rest, true, s, dollar);
      LinesRefineText(lines[1..], LineStep(lines[0], s, dollar), dollar);
    }
  }

  /** For every file, whether its last line is terminated or not. */
  lemma FileRefinesText(f: string, dollar: bool)
    ensures SplitFile(f, dollar) == SplitText(Terminated(f), dollar)
  {
    GetLinesHaveNoNewline(f);
    LinesRefineText(GetLines(f), INIT, dollar);
    UnlinesOfGetLines(f);
  }
}
