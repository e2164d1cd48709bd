/** Printing statements and splitting the print. */
module SqlRoundTrip {
  import opened Strings
  import opened SqlLexer
  import opened SqlScan
  import opened SqlInvariants
  import opened SqlLiterals

  /** One statement as it is written to a file. */
  function PrintOne(x: string): string {
    x + ";\n"
  }

  function Print(xs: seq<string>): string {
    if xs == [] then "" else PrintOne(xs[0]) + Print(xs[1..])
  }

  /**
   Read from `u`, the next `n` bytes are all kept (no delimiter, no comment, no
   DELIMITER line) and leave no literal open.
   */
  predicate KeepsAll(u: string, n: nat, bol: bool, lx: Lexer, dollar: bool)
    requires ValidLexer(lx) && n <= |u|
    decreases n
  {
    if n == 0 then lx.mode.Normal?
    else
      var t := NextToken(u, bol, lx, dollar);
      NextKeepsValid(u, bol, lx, dollar);
      t.kind.Kept? && t.len <= n && KeepsAll(u[t.len..], n - t.len, u[t.len - 1] == '\n', t.next, dollar)
  }

  /** What can be seen of a statement before it is printed. */
  predicate Printable(x: string, dollar: bool) {
    x != "" && Trimmed(x) && KeepsAll(PrintOne(x), |x|, true, START, dollar)
  }

  // ---- printable statements come back ------------------------------------------------------

  lemma KeptKeepsDelim(u: string, bol: bool, lx: Lexer, dollar: bool)
    requires u != "" && ValidLexer(lx) && NextToken(u, bol, lx, dollar).kind.Kept?
    ensures NextToken(u, bol, lx, dollar).next.delim == lx.delim
  {
    LexKeepsValid(u, lx, dollar);
  }

  lemma KeepsAllStep(u: string, n: nat, bol: bool, lx: Lexer, dollar: bool)
    requires ValidLexer(lx) && 0 < n <= |u| && KeepsAll(u, n, bol, lx, dollar)
    ensures var t := NextToken(u, bol, lx, dollar);
            && t.kind.Kept? && 0 < t.len <= n && ValidLexer(t.next)
            && KeepsAll(u[t.len..], n - t.len, u[t.len - 1] == '\n', t.next, dollar)
  {
    hide NextToken;
    NextKeepsValid(u, bol, lx, dollar);
  }

  lemma KeepsAllScanStep(u: string, n: nat, bol: bool, s: Scan, dollar: bool)
    requires ValidLexer(s.lx) && 0 < n <= |u| && KeepsAll(u, n, bol, s.lx, dollar)
    ensures var t := NextToken(u, bol, s.lx, dollar);
            && 0 < t.len <= n && ValidLexer(t.next) && t.next.delim == s.lx.delim
            && KeepsAll(u[t.len..], n - t.len, u[t.len - 1] == '\n', t.next, dollar)
            && ScanText(u, bol, s, dollar)
               == ScanText(u[t.len..], u[t.len - 1] == '\n', Scan(t.next, s.stmt + u[..t.len], s.queries), dollar)
  {
    hide NextToken, ScanText, KeepsAll;
    KeepsAllStep(u, n, bol, s.lx, dollar);
    TextStep(u, bol, s, dollar);
    KeptKeepsDelim(u, bol, s.lx, dollar);
  }

  /** Up to the first byte not kept, the scan only collects. */
  lemma {:induction false} ScanKeepsAll(u: string, n: nat, bol: bool, s: Scan, dollar: bool)
      returns (bol': bool)
    requires ValidLexer(s.lx) && n <= |u| && KeepsAll(u, n, bol, s.lx, dollar)
    ensures ScanText(u, bol, s, dollar)
            == ScanText(u[n..], bol', Scan(Lexer(Normal, "", s.lx.delim), s.stmt + u[..n], s.queries), dollar)
    decreases n
  {
    hide NextToken, ScanText;
    if n == 0 {
      bol' := bol;
      assert u[0..] == u && s.stmt + u[..0] == s.stmt;
    } else {
      hide KeepsAll, IsTag;
      KeepsAllScanStep(u, n, bol, s, dollar);
      var t := NextToken(u, bol, s.lx, dollar);
      var s' := Scan(t.next, s.stmt + u[..t.len], s.queries);
      bol' := ScanKeepsAll(u[t.len..], n - t.len, u[t.len - 1] == '\n', s', dollar);
      SplitAt(u, s.stmt, t.len, n);
    }
  }

  lemma SplitAt(u: string, a: string, m: nat, n: nat)
    requires m <= n <= |u|
    ensures a + u[..m] + u[m..][..n - m] == a + u[..n]
    ensures u[m..][n - m..] == u[n..]
  {
  }

  /** The delimiter and the newline behind a printed statement. */
  lemma ScanTerminator(bol: bool, s: Scan, dollar: bool)
    requires s.lx == START
    ensures ScanText(";\n", bol, s, dollar) == Scan(START, "\n", Push(s.queries, s.stmt))
  {
    hide Trim;
    var u := ";\n";
    assert u[..LineLen(u)] == ";" by { LineLenUnique(u, 1); }
    assert DelimiterCommand(";").None? by { ShortIsNoCommand(";"); }
    assert NextToken(u, bol, s.lx, dollar) == Token(Delimiter, 1, START);
    assert u[1..] == "\n" && "\n"[1..] == "";
    var s' := Scan(START, "", Push(s.queries, s.stmt));
    assert !StartsWith("\n", ";") by { assert "\n"[0] != ";"[0]; }
    assert NextToken("\n", false, START, dollar) == Token(Kept, 1, START);
    assert "\n"[..1] == "\n";
    assert ScanText("\n", false, s', dollar) == ScanText("", true, Scan(START, "\n", s'.queries), dollar);
  }

  lemma TrimOfTrimmed(w: string, x: string, v: string)
    requires Blank(w) && Trimmed(x) && Blank(v)
    ensures Trim(w + x + v) == x
  {
    TrimUnique(w, x, v);
  }

  /** A printed statement is listed as it was, and the scanner is ready again. */
  lemma PrintableComesBack(x: string, s: Scan, dollar: bool)
    requires Printable(x, dollar) && s.lx == START && Blank(s.stmt)
    ensures ScanText(PrintOne(x), true, s, dollar) == Scan(START, "\n", s.queries + [x])
  {
    hide ScanText, KeepsAll, NextToken, Trim;
    var u := PrintOne(x);
    assert u[|x|..] == ";\n" && u[..|x|] == x;
    var bol := ScanKeepsAll(u, |x|, true, s, dollar);
    ScanTerminator(bol, Scan(START, s.stmt + x, s.queries), dollar);
    TrimOfTrimmed(s.stmt, x, "");
    assert s.stmt + x + "" == s.stmt + x;
  }

  lemma {:induction false} PrintEndsLine(xs: seq<string>)
    ensures Print(xs) == "" || EndsLine(Print(xs))
  {
    if xs != [] {
      PrintEndsLine(xs[1..]);
    }
  }

  lemma {:induction false} ScanPrint(xs: seq<string>, s: Scan, dollar: bool)
    requires forall i | 0 <= i < |xs| :: Printable(xs[i], dollar)
    requires s.lx == START && Blank(s.stmt)
    ensures ScanText(Print(xs), true, s, dollar)
            == Scan(START, if xs == [] then s.stmt else "\n", s.queries + xs)
  {
    if xs == [] {
      assert s.queries + [] == s.queries;
    } else {
      hide ScanText, Printable, NextToken;
      var s' := Scan(START, "\n", s.queries + [xs[0]]);
      PrintableComesBack(xs[0], s, dollar);
      ScanTextAppend(PrintOne(xs[0]), Print(xs[1..]), true, s, dollar);
      ScanPrint(xs[1..], s', dollar);
      Assoc(s.queries, [xs[0]], xs[1..]);
      assert [xs[0]] + xs[1..] == xs;
    }
  }

  /** Splitting the print of printable statements gives back the statements. */
  lemma RoundTrip(xs: seq<string>, dollar: bool)
    requires forall i | 0 <= i < |xs| :: Printable(xs[i], dollar)
    ensures SplitFile(Print(xs), dollar) == xs
  {
    hide ScanText, Printable, SplitFile;
    PrintEndsLine(xs);
    ScanPrint(xs, INIT, dollar);
    FileRefinesText(Print(xs), dollar);
    assert [] + xs == xs;
  }

  // ---- token by token -------------------------------------------------------------------------

  function Final(u: string, bol: bool, s: Scan, dollar: bool): seq<string>
    requires ValidLexer(s.lx)
  {
    var r := ScanText(u, bol, s, dollar);
    Push(r.queries, r.stmt)
  }

  lemma FinalStep(u: string, bol: bool, s: Scan, dollar: bool)
    requires ValidLexer(s.lx) && u != ""
    ensures var t := NextToken(u, bol, s.lx, dollar);
            && 0 < t.len <= |u| && ValidLexer(t.next)
            && Final(u, bol, s, dollar) == Final(u[t.len..], u[t.len - 1] == '\n', Absorb(s, u[..t.len], t), dollar)
  {
    hide NextToken, ScanText;
    TextStep(u, bol, s, dollar);
  }

  predicate InComment(m: Mode) {
    m.LineComment? || m.BlockComment?
  }

  /** While `x` + ";\n" is read and its first `j` bytes have all been kept. */
  predicate Reading(x: string, j: nat, lx: Lexer) {
    x != "" && Trimmed(x) && j <= |x| && ValidLexer(lx) && lx.delim == ";" && !InComment(lx.mode)
  }

  function Rest(x: string, j: nat): string
    requires j <= |x|
  {
    x[j..] + ";\n"
  }

  /** Only an escaped byte can be the terminator and kept together with what precedes it. */
  lemma KeptAcrossSemicolon(w: string, n: nat, bol: bool, lx: Lexer, dollar: bool)
    requires ValidLexer(lx) && 0 < n && |w| == n + 2 && w[n] == ';' && w[n + 1] == '\n'
    requires NextToken(w, bol, lx, dollar).kind.Kept? && NextToken(w, bol, lx, dollar).len > n
    ensures n == 1 && NextToken(w, bol, lx, dollar) == Token(Kept, 2, lx)
    ensures lx.mode.SingleQuote? || lx.mode.DoubleQuote?
  {
    var t := NextToken(w, bol, lx, dollar);
    if lx.mode.Normal? && t.len > 1 {
      TagHasNoSemicolon(w, t.len, n);
    } else if lx.mode.DollarQuote? && t.len > 1 {
      assert lx.tag == w[..|lx.tag|];
      TagHasNoSemicolon(w, t.len, n);
    }
  }

  lemma TagHasNoSemicolon(w: string, m: nat, n: nat)
    requires m <= |w| && n < m && w[n] == ';'
    ensures !IsTag(w[..m])
  {
    assert w[..m][n] == ';';
  }

  lemma SemicolonLineIsNoCommand(w: string)
    requires w != "" && w[0] == ';'
    ensures DelimiterCommand(w[..LineLen(w)]).None?
  {
    var line := w[..LineLen(w)];
    assert line != "" && line[0] == ';';
    TrimKeepsHead(line);
    hide Trim;
    if DelimiterCommand(line).Some? {
      CommandHead(line);
    }
  }

  lemma RestOf(x: string, j: nat, n: nat)
    requires j + n <= |x|
    ensures Rest(x, j)[n..] == Rest(x, j + n)
    ensures x[..j] + Rest(x, j)[..n] == x[..j + n]
  {
  }

  lemma KeptNoComment(u: string, bol: bool, lx: Lexer, dollar: bool)
    requires u != "" && !InComment(lx.mode) && NextToken(u, bol, lx, dollar).kind.Kept?
    ensures !InComment(NextToken(u, bol, lx, dollar).next.mode)
  {
  }

  // ---- what a removed comment can do -----------------------------------------------------------

  lemma CommentJoins(dollar: bool)
    ensures ScanText("/#\n", true, INIT, dollar) == Scan(START, "/", [])
  {
    hide Trim, ScanText, DelimiterCommand;
    var u, v, s := "/#\n", "#\n", Scan(START, "/", []);
    NoCommandHere(u);
    assert NextToken(u, true, START, dollar) == Token(Kept, 1, START);
    assert u[1..] == v && u[..1] == "/" && INIT.stmt + "/" == "/";
    TextStep(u, true, INIT, dollar);
    assert ScanText(u, true, INIT, dollar) == ScanText(v, false, s, dollar);
    HashComment(s, dollar);
  }

  lemma HashComment(s: Scan, dollar: bool)
    requires s.lx == START
    ensures ScanText("#\n", false, s, dollar) == s
  {
    hide Trim, ScanText, DelimiterCommand;
    var v, lc := "#\n", START.(mode := LineComment);
    assert NextToken(v, false, START, dollar) == Token(Comment, 1, lc);
    assert v[1..] == "\n" && "\n"[1..] == "";
    TextStep(v, false, s, dollar);
    assert ScanText(v, false, s, dollar) == ScanText("\n", false, s.(lx := lc), dollar);
    assert NextToken("\n", false, lc, dollar) == Token(Comment, 1, START);
    TextStep("\n", false, s.(lx := lc), dollar);
    NothingLeft(true, s, dollar);
  }

  lemma NothingLeft(bol: bool, s: Scan, dollar: bool)
    requires ValidLexer(s.lx)
    ensures ScanText("", bol, s, dollar) == s
  {
  }

  lemma StarIsKept(dollar: bool)
    ensures ScanText("*;\n", true, Scan(START, "/", []), dollar) == Scan(START, "\n", ["/*"])
  {
    hide Trim, ScanText, DelimiterCommand;
    var w := "*;\n";
    NoCommandHere(w);
    TextStep(w, true, Scan(START, "/", []), dollar);
    assert w[1..] == ";\n" && w[..1] == "*";
    assert NextToken(w, true, START, dollar) == Token(Kept, 1, START);
    assert "/" + "*" == "/*";
    ScanTerminator(false, Scan(START, "/*", []), dollar);
    TrimOfTrimmed("", "/*", "");
    assert "" + "/*" + "" == "/*";
  }

  /** A removed comment can join its neighbours to something that reads differently. */
  lemma JoinedByComment(dollar: bool)
    ensures SplitFile("/#\n*;\n", dollar) == ["/*"]
  {
    hide Trim, SplitFile, ScanText;
    var u, w := "/#\n", "*;\n";
    FileRefinesText(u + w, dollar);
    ScanTextAppend(u, w, true, INIT, dollar);
    CommentJoins(dollar);
    StarIsKept(dollar);
    assert u + w == "/#\n*;\n";
    assert Push(["/*"], "\n") == ["/*"] by { assert Blank("\n"); }
  }

  lemma NoCommandHere(u: string)
    requires |u| < 10
    ensures DelimiterCommand(u[..LineLen(u)]).None?
  {
    ShortIsNoCommand(u[..LineLen(u)]);
  }
}
