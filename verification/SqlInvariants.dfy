/** What holds in every state any scan can reach. */
module SqlInvariants {
  import opened Strings
  import opened SqlLexer
  import opened SqlScan

  predicate InLiteral(m: Mode) {
    m in {SingleQuote, DoubleQuote, Backtick, DollarQuote}
  }

  /** Listed queries are never empty and carry no outer whitespace. */
  predicate CleanQueries(queries: seq<string>) {
    forall i | 0 <= i < |queries| :: queries[i] != "" && Trimmed(queries[i])
  }

  predicate Inv(s: Scan, dollar: bool) {
    && ValidLexer(s.lx)
    && (s.lx.mode.DollarQuote? ==> dollar)
    && (InLiteral(s.lx.mode) ==> !Blank(s.stmt))
    && CleanQueries(s.queries)
  }

  lemma PushKeepsClean(queries: seq<string>, stmt: string)
    requires CleanQueries(queries)
    ensures CleanQueries(Push(queries, stmt))
  {
  }

  lemma GrowKeepsInk(a: string, b: string)
    ensures !Blank(a) ==> !Blank(a + b)
    ensures b != "" && !IsTrimChar(b[0]) ==> !Blank(a + b)
  {
    assert forall i | 0 <= i < |a| :: (a + b)[i] == a[i];
    assert b != "" ==> (a + b)[|a|] == b[0];
  }

  lemma TokenKeepsInv(u: string, s: Scan, dollar: bool, bol: bool)
    requires u != "" && Inv(s, dollar)
    ensures var t := NextToken(u, bol, s.lx, dollar);
            0 < t.len <= |u| && Inv(Absorb(s, u[..t.len], t), dollar)
  {
    NextKeepsValid(u, bol, s.lx, dollar);
    var t := NextToken(u, bol, s.lx, dollar);
    var piece := u[..t.len];
    PushKeepsClean(s.queries, s.stmt);
    GrowKeepsInk(s.stmt, piece);
    assert piece[0] == u[0];
    if !dollar {
      NoDollarModeWhenOff(u, s.lx);
    }
  }

  lemma {:induction false} ScanKeepsInv(u: string, bol: bool, s: Scan, dollar: bool)
    requires Inv(s, dollar)
    ensures Inv(ScanText(u, bol, s, dollar), dollar)
    decreases |u|
  {
    if u != "" {
      var t := NextToken(u, bol, s.lx, dollar);
      TokenKeepsInv(u, s, dollar, bol);
      ScanKeepsInv(u[t.len..], u[t.len - 1] == '\n', Absorb(s, u[..t.len], t), dollar);
    }
  }

  lemma LineCommentOpenersShort(u: string, bol: bool, lx: Lexer, dollar: bool)
    requires u != "" && ValidLexer(lx)
    ensures var t := NextToken(u, bol, lx, dollar);
            0 < t.len <= |u| && (t.next.mode.LineComment? ==> u[t.len - 1] != '\n')
  {
    NextKeepsValid(u, bol, lx, dollar);
  }

  /** A line comment never survives the line it is on. */
  lemma {:induction false} LineCommentEndsWithLine(u: string, bol: bool, s: Scan, dollar: bool)
    requires ValidLexer(s.lx) && EndsLine(u)
    ensures !ScanText(u, bol, s, dollar).lx.mode.LineComment?
    decreases |u|
  {
    hide NextToken;
    var t := NextToken(u, bol, s.lx, dollar);
    NextKeepsValid(u, bol, s.lx, dollar);
    LineCommentOpenersShort(u, bol, s.lx, dollar);
    var rest, s' := u[t.len..], Absorb(s, u[..t.len], t);
    if rest != "" {
      LineCommentEndsWithLine(rest, u[t.len - 1] == '\n', s', dollar);
    } else {
      assert ScanText(rest, u[t.len - 1] == '\n', s', dollar) == s';
    }
  }

  /**
   At the end of every file: the scanner invariants hold, the scanner is not in a
   line comment, and every query listed is non-empty and trimmed.
   */
  lemma ReachableStates(f: string, dollar: bool)
    ensures var s := ScanText(Terminated(f), true, INIT, dollar);
            && Inv(s, dollar) && !s.lx.mode.LineComment?
            && SplitFile(f, dollar) == Push(s.queries, s.stmt)
            && CleanQueries(SplitFile(f, dollar))
  {
    var u := Terminated(f);
    ScanKeepsInv(u, true, INIT, dollar);
    if u != "" {
      LineCommentEndsWithLine(u, true, INIT, dollar);
    }
    var s := ScanText(u, true, INIT, dollar);
    FileRefinesText(f, dollar);
    PushKeepsClean(s.queries, s.stmt);
  }

  lemma TokenWithoutDollar(u: string, bol: bool, lx: Lexer)
    requires u != "" && '$' !in u && ValidLexer(lx) && !lx.mode.DollarQuote?
    ensures NextToken(u, bol, lx, true) == NextToken(u, bol, lx, false)
    ensures !NextToken(u, bol, lx, true).next.mode.DollarQuote?
  {
    assert u[0] in u;
  }

  lemma {:induction false} ScanWithoutDollar(u: string, bol: bool, s: Scan)
    requires '$' !in u && ValidLexer(s.lx) && !s.lx.mode.DollarQuote?
    ensures ScanText(u, bol, s, true) == ScanText(u, bol, s, false)
    decreases |u|
  {
    if u != "" {
      var t := NextToken(u, bol, s.lx, true);
      TokenWithoutDollar(u, bol, s.lx);
      NextKeepsValid(u, bol, s.lx, true);
      ScanWithoutDollar(u[t.len..], u[t.len - 1] == '\n', Absorb(s, u[..t.len], t));
    }
  }

  /** Dollar quoting makes no difference to a file without a dollar sign. */
  lemma DollarQuotingNeedsDollar(f: string)
    requires '$' !in f
    ensures SplitFile(f, true) == SplitFile(f, false)
  {
    ScanWithoutDollar(Terminated(f), true, INIT);
    FileRefinesText(f, true);
    FileRefinesText(f, false);
  }
}
