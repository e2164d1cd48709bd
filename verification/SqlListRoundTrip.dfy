/** Which lists of statements survive being printed and split, and which files being split twice. */
module SqlListRoundTrip {
  import opened Strings
  import opened SqlLexer
  import opened SqlScan
  import opened SqlInvariants
  import opened SqlConcat
  import opened SqlConservation
  import opened SqlLiterals
  import opened SqlRoundTrip
  import opened SqlStatement

  // ---- counting: nothing but terminators can be dropped ----------------------------------------

  /** How many characters of the text are not of the kind printed between statements. */
  function Weight(s: string): nat {
    if s == "" then 0 else (if s[0] == ';' || s[0] == '\n' then 0 else 1) + Weight(s[1..])
  }

  lemma {:induction false} WeightAppend(a: string, b: string)
    ensures Weight(a + b) == Weight(a) + Weight(b)
  {
    if a == "" {
      assert a + b == b;
    } else {
      assert (a + b)[1..] == a[1..] + b;
      WeightAppend(a[1..], b);
    }
  }

  lemma TrimLighter(s: string)
    ensures Weight(Trim(s)) <= Weight(s)
  {
    hide Trim, Weight;
    var a, b := TrimSplits(s);
    WeightAppend(a + Trim(s), b);
    WeightAppend(a, Trim(s));
  }

  lemma WeightOfPrintOne(x: string)
    ensures Weight(PrintOne(x)) == Weight(x)
  {
    WeightAppend(x, ";\n");
    assert ";\n"[1..] == "\n" && "\n"[1..] == "";
  }

  lemma {:induction false} WeightOfPrint(xs: seq<string>)
    ensures Weight(Print(xs)) == Weight(Join(xs))
  {
    if xs != [] {
      hide PrintOne;
      WeightOfPrintOne(xs[0]);
      WeightOfPrint(xs[1..]);
      WeightAppend(PrintOne(xs[0]), Print(xs[1..]));
      WeightAppend(xs[0], Join(xs[1..]));
    }
  }

  lemma {:induction false} ListedLighter(stmts: seq<string>)
    ensures Weight(Join(Listed(stmts))) <= Weight(Join(stmts))
  {
    if stmts != [] {
      hide Trim, Weight;
      var q, rest := Trim(stmts[0]), Listed(stmts[1..]);
      ListedLighter(stmts[1..]);
      TrimLighter(stmts[0]);
      WeightAppend(stmts[0], Join(stmts[1..]));
      WeightAppend(q, Join(rest));
      assert ([q] + rest)[1..] == rest;
      assert [] + rest == rest;
    }
  }

  /** The weight of the pieces that are not kept. */
  function Dropped(ps: seq<Piece>): nat {
    if ps == [] then 0 else (if ps[0].kind.Kept? then 0 else Weight(ps[0].text)) + Dropped(ps[1..])
  }

  lemma {:induction false} WeightOfPieces(ps: seq<Piece>)
    ensures Weight(Flat(ps)) == Weight(KeptText(ps)) + Dropped(ps)
  {
    if ps == [] {
      assert Weight("") == 0;
    } else {
      hide Weight;
      WeightOfPieces(ps[1..]);
      WeightAppend(ps[0].text, Flat(ps[1..]));
      WeightAppend(ps[0].text, KeptText(ps[1..]));
      assert "" + KeptText(ps[1..]) == KeptText(ps[1..]);
    }
  }

  /** From here on only ";" and newlines are dropped. */
  predicate DropsLittle(u: string, bol: bool, lx: Lexer, dollar: bool)
    requires ValidLexer(lx)
  {
    Dropped(Pieces(u, bol, lx, dollar)) == 0
  }

  lemma ListDropsLittle(xs: seq<string>, dollar: bool)
    requires SplitFile(Print(xs), dollar) == xs
    ensures DropsLittle(Print(xs), true, START, dollar)
  {
    hide Weight, SplitFile, Pieces, Print, Dropped, Listed, Statements, Join, KeptText, Flat, Trim, Subsequence;
    var u := Print(xs);
    PrintEndsLine(xs);
    var ps := Pieces(u, true, START, dollar);
    Conservation(u, dollar);
    ListedLighter(Statements(ps));
    WeightOfPrint(xs);
    WeightOfPieces(ps);
  }

  // ---- so every token is kept or a terminator ---------------------------------------------------------

  /** The lexer while a text is read that is made of statements and terminators. */
  predicate Between(lx: Lexer) {
    ValidLexer(lx) && lx.delim == ";" && !InComment(lx.mode)
  }

  lemma HeavyHead(s: string, c: char)
    requires s != "" && s[0] == c && c != ';' && c != '\n'
    ensures Weight(s) > 0
  {
  }

  lemma CommandHeavy(line: string, s: string)
    requires DelimiterCommand(line).Some? && StartsWith(s, line)
    ensures Weight(s) > 0
  {
    assert Trim(line) != "";
    hide DelimiterCommand, Weight;
    CommandHead(line);
    HeavyHead(Trim(line), Trim(line)[0]);
    TrimLighter(line);
    assert s == line + s[|line|..];
    WeightAppend(line, s[|line|..]);
  }

  lemma TokenWeight(u: string, bol: bool, lx: Lexer, dollar: bool)
    requires u != "" && Between(lx)
    ensures var t := NextToken(u, bol, lx, dollar);
            && 0 < t.len <= |u| && ValidLexer(t.next)
            && ((t.kind.Kept? && Between(t.next))
                || (t == Token(Delimiter, 1, lx) && lx.mode.Normal? && u[0] == ';')
                || (!t.kind.Kept? && Weight(u[..t.len]) > 0))
  {
    hide Trim, DelimiterCommand, Weight, IsTag, TagLen;
    NextKeepsValid(u, bol, lx, dollar);
    var t := NextToken(u, bol, lx, dollar);
    if t.kind.Command? {
      CommandHeavy(u[..LineLen(u)], u[..t.len]);
    } else if t.kind.Comment? {
      HeavyHead(u[..t.len], u[0]);
    } else if t.kind.Kept? {
      KeptKeepsDelim(u, bol, lx, dollar);
      KeptNoComment(u, bol, lx, dollar);
    }
  }

  lemma PiecesStep(u: string, bol: bool, lx: Lexer, dollar: bool)
    requires ValidLexer(lx) && u != ""
    ensures var t := NextToken(u, bol, lx, dollar);
            && 0 < t.len <= |u| && ValidLexer(t.next)
            && Dropped(Pieces(u, bol, lx, dollar))
               == (if t.kind.Kept? then 0 else Weight(u[..t.len]))
                  + Dropped(Pieces(u[t.len..], u[t.len - 1] == '\n', t.next, dollar))
  {
    hide NextToken, Weight;
    NextKeepsValid(u, bol, lx, dollar);
  }

  lemma LittleStep(u: string, bol: bool, lx: Lexer, dollar: bool)
    requires Between(lx) && u != "" && DropsLittle(u, bol, lx, dollar)
    ensures var t := NextToken(u, bol, lx, dollar);
            && 0 < t.len <= |u| && Between(t.next)
            && DropsLittle(u[t.len..], u[t.len - 1] == '\n', t.next, dollar)
            && (t.kind.Kept? || (t == Token(Delimiter, 1, lx) && lx.mode.Normal? && u[0] == ';'))
  {
    hide NextToken, Weight, Pieces, Dropped, ValidLexer;
    TokenWeight(u, bol, lx, dollar);
    PiecesStep(u, bol, lx, dollar);
  }

  // ---- so no query begins with a semicolon ---------------------------------------------------------------

  /** Every ";" has something before it that is not trimmed away. */
  predicate InkFirst(s: string) {
    forall i | 0 <= i < |s| && s[i] == ';' :: !Blank(s[..i])
  }

  predicate NoSemicolonHeads(queries: seq<string>) {
    forall i | 0 <= i < |queries| && queries[i] != "" :: queries[i][0] != ';'
  }

  lemma PushKeepsHeads(queries: seq<string>, stmt: string)
    requires InkFirst(stmt) && NoSemicolonHeads(queries)
    ensures NoSemicolonHeads(Push(queries, stmt))
  {
    hide Trim;
    var a, b := TrimSplits(stmt);
    var q := Trim(stmt);
    if q != "" {
      assert stmt[|a|] == q[0] && stmt[..|a|] == a;
    }
  }

  lemma KeptHead(u: string, bol: bool, lx: Lexer, dollar: bool)
    requires u != "" && Between(lx) && lx.mode.Normal? && NextToken(u, bol, lx, dollar).kind.Kept?
    ensures u[0] != ';'
    ensures NextToken(u, bol, lx, dollar).len == 1 || u[0] == '$'
  {
    hide Trim, DelimiterCommand, IsTag;
    assert u[..1] == [u[0]];
  }

  lemma InkGrows(s: string, piece: string)
    requires InkFirst(s) && piece != ""
    requires !Blank(s) || (piece[0] != ';' && (|piece| == 1 || !IsTrimChar(piece[0])))
    ensures InkFirst(s + piece)
  {
    hide IsTrimChar;
    var r := s + piece;
    forall i | 0 <= i < |r| && r[i] == ';'
      ensures !Blank(r[..i])
    {
      if i < |s| {
        assert r[..i] == s[..i];
      } else if !Blank(s) {
        var k :| 0 <= k < |s| && !IsTrimChar(s[k]);
        assert r[..i][k] == s[k];
      } else {
        assert r[..i][|s|] == piece[0];
      }
    }
  }

  lemma {:induction false} HeadsStay(u: string, bol: bool, s: Scan, dollar: bool)
    requires Between(s.lx) && Inv(s, dollar) && DropsLittle(u, bol, s.lx, dollar)
    requires InkFirst(s.stmt) && NoSemicolonHeads(s.queries)
    ensures NoSemicolonHeads(Final(u, bol, s, dollar))
    decreases |u|
  {
    hide Trim, NextToken, DropsLittle, ScanText;
    if u == "" {
      NothingLeft(bol, s, dollar);
      PushKeepsHeads(s.queries, s.stmt);
    } else {
      hide Final, Push, NoSemicolonHeads, CleanQueries;
      var t := NextToken(u, bol, s.lx, dollar);
      LittleStep(u, bol, s.lx, dollar);
      TokenKeepsInv(u, s, dollar, bol);
      FinalStep(u, bol, s, dollar);
      HeadsToken(u, bol, s, dollar);
      HeadsStay(u[t.len..], u[t.len - 1] == '\n', Absorb(s, u[..t.len], t), dollar);
    }
  }

  lemma HeadsToken(u: string, bol: bool, s: Scan, dollar: bool)
    requires u != "" && Between(s.lx) && Inv(s, dollar) && InkFirst(s.stmt) && NoSemicolonHeads(s.queries)
    requires DropsLittle(u, bol, s.lx, dollar)
    ensures var t := NextToken(u, bol, s.lx, dollar);
            && 0 < t.len <= |u|
            && var s' := Absorb(s, u[..t.len], t);
               InkFirst(s'.stmt) && NoSemicolonHeads(s'.queries)
  {
    hide Trim, NextToken, DropsLittle, Push, ValidLexer, InkFirst, NoSemicolonHeads;
    var t := NextToken(u, bol, s.lx, dollar);
    LittleStep(u, bol, s.lx, dollar);
    if t.kind.Kept? {
      if s.lx.mode.Normal? {
        KeptHead(u, bol, s.lx, dollar);
      }
      InkGrows(s.stmt, u[..t.len]);
    } else {
      PushKeepsHeads(s.queries, s.stmt);
      assert InkFirst("") by { InkOfNothing(); }
    }
  }

  lemma InkOfNothing()
    ensures InkFirst("")
  {
  }

  lemma ListHeads(xs: seq<string>, dollar: bool)
    requires SplitFile(Print(xs), dollar) == xs
    ensures NoSemicolonHeads(xs)
  {
    hide SplitFile, DropsLittle, ScanText, NoSemicolonHeads, Print, Trim;
    PrintEndsLine(xs);
    ListDropsLittle(xs, dollar);
    FileRefinesText(Print(xs), dollar);
    InkOfNothing();
    assert NoSemicolonHeads([]) by { NoHeads(); }
    HeadsStay(Print(xs), true, INIT, dollar);
  }

  lemma NoHeads()
    ensures NoSemicolonHeads([])
  {
  }

  // ---- the first query grows until it is listed --------------------------------------------------------------

  predicate First(queries: seq<string>, x: string) {
    queries != [] && queries[0] == x
  }

  lemma {:induction false} QueriesStay(u: string, bol: bool, s: Scan, dollar: bool)
    requires ValidLexer(s.lx)
    ensures s.queries <= Final(u, bol, s, dollar)
    decreases |u|
  {
    hide Trim, NextToken, ScanText;
    if u == "" {
      NothingLeft(bol, s, dollar);
    } else {
      hide Final;
      var t := NextToken(u, bol, s.lx, dollar);
      FinalStep(u, bol, s, dollar);
      QueriesStay(u[t.len..], u[t.len - 1] == '\n', Absorb(s, u[..t.len], t), dollar);
    }
  }

  /** What is left of the text when its ends are trimmed reaches from here to there. */
  predicate Spans(s: string, m: nat) {
    0 < m <= |s| && !IsTrimChar(s[0]) && !IsTrimChar(s[m - 1])
  }

  lemma TrimAtLeast(s: string, m: nat)
    requires Spans(s, m)
    ensures |Trim(s)| >= m
  {
    hide Trim, IsTrimChar;
    var a, b := TrimSplits(s);
    assert forall i | 0 <= i < |a| :: s[i] == a[i];
    var n := |Trim(s)|;
    assert a == "" && |s| == n + |b|;
    assert forall i | n <= i < |s| :: s[i] == b[i - n];
  }

  lemma PushLong(stmt: string, m: nat)
    requires Spans(stmt, m)
    ensures Push([], stmt) == [Trim(stmt)] && |Trim(stmt)| >= m
  {
    hide Trim;
    TrimAtLeast(stmt, m);
  }

  lemma {:induction false} FirstIsLong(u: string, bol: bool, s: Scan, dollar: bool, m: nat, x: string)
    requires ValidLexer(s.lx) && s.queries == [] && Spans(s.stmt, m) && |x| < m
    ensures !First(Final(u, bol, s, dollar), x)
    decreases |u|
  {
    hide Trim, NextToken, ScanText, Push;
    PushLong(s.stmt, m);
    if u == "" {
      NothingLeft(bol, s, dollar);
    } else {
      hide Final;
      var t := NextToken(u, bol, s.lx, dollar);
      FinalStep(u, bol, s, dollar);
      var s' := Absorb(s, u[..t.len], t);
      if t.kind.Delimiter? {
        QueriesStay(u[t.len..], u[t.len - 1] == '\n', s', dollar);
      } else {
        FirstIsLong(u[t.len..], u[t.len - 1] == '\n', s', dollar, m, x);
      }
    }
  }

  // ---- the walk through the first statement -------------------------------------------------------------------

  /** `x`, of which `j` bytes have been read and kept, is going to be the first query. */
  ghost predicate Coming(x: string, j: nat, tail: string, bol: bool, lx: Lexer, dollar: bool) {
    && Reading(x, j, lx) && x[0] != ';' && (j == 0 ==> lx == START)
    && DropsLittle(Rest(x, j) + tail, bol, lx, dollar)
    && First(Final(Rest(x, j) + tail, bol, Scan(lx, x[..j], []), dollar), x)
  }

  lemma RestHasNewline(x: string, j: nat)
    requires j <= |x|
    ensures '\n' in Rest(x, j) && Rest(x, j) != ""
    ensures j < |x| ==> Rest(x, j)[0] == x[j]
    ensures j == |x| ==> Rest(x, j) == ";\n"
  {
    var w := Rest(x, j);
    assert w[|w| - 1] == '\n';
  }

  /** The step of the walk: what the next token is, and what is then left. */
  lemma ComingStep(x: string, j: nat, tail: string, bol: bool, lx: Lexer, dollar: bool) returns (t: Token)
    requires Coming(x, j, tail, bol, lx, dollar)
    ensures var w := Rest(x, j);
            && t == NextToken(w, bol, lx, dollar) && 0 < t.len <= |w| && Between(t.next)
            && (t.kind.Kept? || (t == Token(Delimiter, 1, lx) && lx.mode.Normal? && w[0] == ';'))
            && DropsLittle(w[t.len..] + tail, w[t.len - 1] == '\n', t.next, dollar)
            && var s' := Absorb(Scan(lx, x[..j], []), w[..t.len], t);
               First(Final(w[t.len..] + tail, w[t.len - 1] == '\n', s', dollar), x)
  {
    hide NextToken, DropsLittle, Final, Trim, First;
    var w, s := Rest(x, j), Scan(lx, x[..j], []);
    RestHasNewline(x, j);
    hide Rest;
    NextLocal(w, tail, bol, lx, dollar);
    NextKeepsValid(w, bol, lx, dollar);
    t := NextToken(w, bol, lx, dollar);
    LittleStep(w + tail, bol, lx, dollar);
    FinalStep(w + tail, bol, s, dollar);
    AppendSlices(w, tail, t.len);
    assert (w + tail)[0] == w[0];
  }

  lemma EarlySemicolon(x: string, j: nat, u: string, bol: bool, lx: Lexer, dollar: bool)
    requires Reading(x, j, lx) && 0 < j < |x|
    ensures !First(Final(u, bol, Scan(lx, "", Push([], x[..j])), dollar), x)
  {
    hide Trim, Final;
    var s := Scan(lx, "", Push([], x[..j]));
    QueriesStay(u, bol, s, dollar);
    assert !Blank(x[..j]) by { assert x[..j][0] == x[0]; }
    TrimShortens(x[..j]);
    assert s.queries[0] == Trim(x[..j]);
  }

  lemma TerminatorInside(x: string, u: string, bol: bool, lx: Lexer, dollar: bool)
    requires x != "" && Trimmed(x) && ValidLexer(lx)
    ensures !First(Final(u, bol, Scan(lx, x + ";", []), dollar), x)
  {
    hide Trim, Final;
    FirstIsLong(u, bol, Scan(lx, x + ";", []), dollar, |x| + 1, x);
  }

  /** At the terminator no literal can be open. */
  lemma ClosedAtTerminator(x: string, tail: string, bol: bool, lx: Lexer, dollar: bool)
    requires Coming(x, |x|, tail, bol, lx, dollar)
    ensures lx.mode.Normal?
  {
    if !lx.mode.Normal? {
      var t := ComingStep(x, |x|, tail, bol, lx, dollar);
      hide DropsLittle, Final, Trim, First;
      var w := ";\n";
      RestHasNewline(x, |x|);
      OpenKeepsSemicolon(bol, lx, dollar);
      assert x[..|x|] == x && w[..1] == ";";
      TerminatorInside(x, w[1..] + tail, w[0] == '\n', lx, dollar);
    }
  }

  lemma OpenKeepsSemicolon(bol: bool, lx: Lexer, dollar: bool)
    requires Between(lx) && !lx.mode.Normal?
    ensures NextToken(";\n", bol, lx, dollar) == Token(Kept, 1, lx)
  {
    var u := ";\n";
    if lx.mode.DollarQuote? && StartsWith(u, lx.tag) {
      PrefixEnds(u, lx.tag);
    }
  }

  lemma ComingNoDelimiter(x: string, j: nat, tail: string, bol: bool, lx: Lexer, dollar: bool)
    requires Coming(x, j, tail, bol, lx, dollar) && j < |x|
    ensures NextToken(Rest(x, j), bol, lx, dollar).kind.Kept?
  {
    var w := Rest(x, j);
    var t := ComingStep(x, j, tail, bol, lx, dollar);
    hide NextToken, DropsLittle, Final, Trim, First, Push;
    if !t.kind.Kept? {
      RestHasNewline(x, j);
      hide Rest;
      EarlySemicolon(x, j, w[1..] + tail, w[0] == '\n', lx, dollar);
    }
  }

  lemma ComingFits(x: string, j: nat, tail: string, bol: bool, lx: Lexer, dollar: bool)
    requires Coming(x, j, tail, bol, lx, dollar) && j < |x|
    ensures NextToken(Rest(x, j), bol, lx, dollar).len <= |x| - j
  {
    var w := Rest(x, j);
    var t := ComingStep(x, j, tail, bol, lx, dollar);
    ComingNoDelimiter(x, j, tail, bol, lx, dollar);
    hide NextToken, DropsLittle, Final, Trim, First, Push;
    if t.len > |x| - j {
      KeptAcrossSemicolon(w, |x| - j, bol, lx, dollar);
      assert w[..2] == [x[j], ';'] && x[..j] + [x[j], ';'] == x + ";";
      hide Rest;
      TerminatorInside(x, w[2..] + tail, w[1] == '\n', lx, dollar);
    }
  }

  lemma ComingKept(x: string, j: nat, tail: string, bol: bool, lx: Lexer, dollar: bool) returns (t: Token)
    requires Coming(x, j, tail, bol, lx, dollar) && j < |x|
    ensures t == NextToken(Rest(x, j), bol, lx, dollar) && t.kind.Kept? && 0 < t.len <= |x| - j
    ensures Coming(x, j + t.len, tail, Rest(x, j)[t.len - 1] == '\n', t.next, dollar)
  {
    t := ComingStep(x, j, tail, bol, lx, dollar);
    ComingNoDelimiter(x, j, tail, bol, lx, dollar);
    ComingFits(x, j, tail, bol, lx, dollar);
    hide NextToken, DropsLittle, Final, Trimmed, First, ValidLexer, Push;
    var w, s := Rest(x, j), Scan(lx, x[..j], []);
    var rest := w[t.len..];
    RestOf(x, j, t.len);
    hide Rest;
    assert Absorb(s, w[..t.len], t) == Scan(t.next, x[..j + t.len], []);
    assert Reading(x, j + t.len, t.next);
    hide Reading, Between, Absorb;
  }

  lemma {:induction false} MustKeepFirst(x: string, j: nat, tail: string, bol: bool, lx: Lexer, dollar: bool)
    requires Coming(x, j, tail, bol, lx, dollar)
    ensures ValidLexer(lx) && KeepsAll(Rest(x, j), |x| - j, bol, lx, dollar)
    decreases |x| - j
  {
    hide NextToken, DropsLittle, Final, Trim, First, KeepsAll;
    if j == |x| {
      ClosedAtTerminator(x, tail, bol, lx, dollar);
      NothingMore(Rest(x, j), bol, lx, dollar);
    } else {
      hide Coming;
      var t := ComingKept(x, j, tail, bol, lx, dollar);
      var w := Rest(x, j);
      MustKeepFirst(x, j + t.len, tail, w[t.len - 1] == '\n', t.next, dollar);
      RestOf(x, j, t.len);
      assert |x| - j - t.len == |x| - (j + t.len);
      assert ValidLexer(lx) by { ComingValid(x, j, tail, bol, lx, dollar); }
      KeepsAllIff(w, |x| - j, bol, lx, dollar, t);
    }
  }

  lemma NothingMore(u: string, bol: bool, lx: Lexer, dollar: bool)
    requires ValidLexer(lx) && lx.mode.Normal?
    ensures KeepsAll(u, 0, bol, lx, dollar)
  {
  }

  lemma ComingValid(x: string, j: nat, tail: string, bol: bool, lx: Lexer, dollar: bool)
    requires Coming(x, j, tail, bol, lx, dollar)
    ensures ValidLexer(lx) && j <= |x| && x != ""
  {
  }

  // ---- statement by statement ------------------------------------------------------------------------------------

  lemma FirstComesBack(xs: seq<string>, dollar: bool)
    requires xs != [] && SplitFile(Print(xs), dollar) == xs
    ensures Printable(xs[0], dollar)
  {
    hide SplitFile, DropsLittle, ScanText, KeepsAll, Trim;
    var x, tail := xs[0], Print(xs[1..]);
    assert Rest(x, 0) + tail == Print(xs) && x[..0] == "" && Rest(x, 0) == PrintOne(x);
    PrintEndsLine(xs);
    ReachableStates(Print(xs), dollar);
    ListDropsLittle(xs, dollar);
    ListHeads(xs, dollar);
    FileRefinesText(Print(xs), dollar);
    assert Final(Print(xs), true, INIT, dollar) == xs;
    MustKeepFirst(x, 0, tail, true, START, dollar);
  }

  lemma PrintableIsReady(x: string, dollar: bool)
    requires Printable(x, dollar)
    ensures Ready(ScanText(PrintOne(x), true, INIT, dollar))
    ensures SplitFile(PrintOne(x), dollar) == [x]
  {
    PrintableComesBack(x, INIT, dollar);
    RoundTrip([x], dollar);
    hide ScanText, SplitFile, Printable;
    assert Blank("\n") && Print([x]) == PrintOne(x);
  }

  lemma {:induction false} MustBePrintable(xs: seq<string>, dollar: bool)
    requires SplitFile(Print(xs), dollar) == xs
    ensures forall x | x in xs :: Printable(x, dollar)
  {
    if xs != [] {
      hide SplitFile, ScanText, Printable, Ready;
      FirstComesBack(xs, dollar);
      PrintableIsReady(xs[0], dollar);
      Concatenation(PrintOne(xs[0]), Print(xs[1..]), dollar);
      assert [xs[0]] + SplitFile(Print(xs[1..]), dollar) == [xs[0]] + xs[1..];
      SameTail(xs[0], SplitFile(Print(xs[1..]), dollar), xs[1..]);
      MustBePrintable(xs[1..], dollar);
    }
  }

  lemma SameTail(x: string, a: seq<string>, b: seq<string>)
    requires [x] + a == [x] + b
    ensures a == b
  {
    assert ([x] + a)[1..] == a && ([x] + b)[1..] == b;
  }

  /** A list comes back from being printed and split exactly if every text in it is kept whole. */
  lemma ListRoundTripKept(xs: seq<string>, dollar: bool)
    ensures SplitFile(Print(xs), dollar) == xs <==> forall x | x in xs :: Printable(x, dollar)
  {
    hide SplitFile, Printable;
    if SplitFile(Print(xs), dollar) == xs {
      MustBePrintable(xs, dollar);
    }
    if forall x | x in xs :: Printable(x, dollar) {
      RoundTrip(xs, dollar);
    }
  }

  // ---- in terms of the text alone ------------------------------------------------------------------------------

  /** Non-empty, trimmed, and made of literals and ordinary bytes. */
  ghost predicate WellFormed(x: string, dollar: bool) {
    x != "" && Trimmed(x) && Statement(PrintOne(x), |x|, true, dollar)
  }

  lemma PrintableIsWellFormed(x: string, dollar: bool)
    ensures Printable(x, dollar) <==> WellFormed(x, dollar)
  {
    hide KeepsAll, Statement, Trim;
    if KeepsAll(PrintOne(x), |x|, true, START, dollar) {
      KeptIsStatement(PrintOne(x), |x|, true, dollar);
    }
    if Statement(PrintOne(x), |x|, true, dollar) {
      StatementIsKept(PrintOne(x), |x|, true, dollar);
    }
  }

  /**
   The round trip of lists. A list comes back from being printed and split exactly if
   each of its texts is a well-formed statement.
   */
  lemma ListRoundTrip(xs: seq<string>, dollar: bool)
    ensures SplitFile(Print(xs), dollar) == xs <==> forall x | x in xs :: WellFormed(x, dollar)
  {
    hide SplitFile, Printable, WellFormed;
    ListRoundTripKept(xs, dollar);
    forall x: string
      ensures Printable(x, dollar) <==> WellFormed(x, dollar)
    {
      PrintableIsWellFormed(x, dollar);
    }
  }

  /**
   Splitting what a file was split into changes nothing exactly if all its queries are
   of the grammar; that they are non-empty and trimmed they always are.
   */
  lemma IdempotentExact(f: string, dollar: bool)
    ensures var queries := SplitFile(f, dollar);
            SplitFile(Print(queries), dollar) == queries
            <==> forall x | x in queries :: Statement(PrintOne(x), |x|, true, dollar)
  {
    hide SplitFile, Statement, ScanText;
    ListRoundTrip(SplitFile(f, dollar), dollar);
    ReachableStates(f, dollar);
  }

  /** So printing what a file was split into and splitting again may give something else. */
  lemma NotIdempotent(dollar: bool)
    ensures exists f :: SplitFile(Print(SplitFile(f, dollar)), dollar) != SplitFile(f, dollar)
  {
    hide SplitFile, ScanText, Trim, DelimiterCommand;
    var f, u := "/#\n*;\n", PrintOne("/*");
    JoinedByComment(dollar);
    assert Print(["/*"]) == u;
    NoCommandHere(u);
    assert u[0] == '/' && u[1] == '*';
    assert NextToken(u, true, START, dollar).kind.Comment?;
    assert !KeepsAll(u, 2, true, START, dollar);
    ListRoundTripKept(["/*"], dollar);
    assert "/*" in ["/*"];
    assert SplitFile(Print(SplitFile(f, dollar)), dollar) != SplitFile(f, dollar);
  }
}
