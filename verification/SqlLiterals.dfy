/** Where literals end, and that their bytes are kept as they are. */
module SqlLiterals {
  import opened Strings
  import opened SqlLexer
  import opened SqlScan

  // ---- declarative: the end of a literal ---------------------------------------------

  /** Number of backslashes directly in front of `u[k]`. */
  function Backslashes(u: string, k: nat): nat
    requires k <= |u|
  {
    if k == 0 || u[k - 1] != '\\' then 0 else 1 + Backslashes(u, k - 1)
  }

  predicate UnescapedQuote(u: string, quote: char, k: nat) {
    k < |u| && u[k] == quote && Backslashes(u, k) % 2 == 0
  }

  /** `k` is the first quote of `u` with an even run of backslashes before it. */
  predicate QuoteCloses(u: string, quote: char, k: nat) {
    UnescapedQuote(u, quote, k) && forall j: nat | j < k :: !UnescapedQuote(u, quote, j)
  }

  predicate OccursAt(u: string, p: string, k: nat) {
    k <= |u| && StartsWith(u[k..], p)
  }

  /** `k` is where `p` occurs first in `u`. */
  predicate FirstAt(u: string, p: string, k: nat) {
    OccursAt(u, p, k) && forall j: nat | j < k :: !OccursAt(u, p, j)
  }

  predicate IsQuote(lx: Lexer, quote: char) {
    || (lx.mode.SingleQuote? && quote == '\'')
    || (lx.mode.DoubleQuote? && quote == '"')
  }

  function Close(lx: Lexer): Lexer {
    lx.(mode := Normal, tag := "")
  }

  function Collect(s: Scan, piece: string): Scan {
    s.(stmt := s.stmt + piece)
  }

  /** `s` once `piece` is collected and the literal is over. */
  function Closed(s: Scan, piece: string): Scan {
    Collect(s, piece).(lx := Close(s.lx))
  }

  lemma CutHere(u: string, s: Scan, n: nat, m: nat)
    requires n <= m <= |u|
    ensures Closed(Collect(s, u[..n]), u[n..][..m - n]) == Closed(s, u[..m])
    ensures Collect(Collect(s, u[..n]), u[n..][..m - n]) == Collect(s, u[..m])
    ensures u[n..][m - n..] == u[m..]
  {
    Assoc(s.stmt, u[..n], u[n..m]);
    assert u[n..][..m - n] == u[n..m];
    assert u[..n] + u[n..m] == u[..m];
  }

  lemma CutAll(u: string, s: Scan, n: nat)
    requires n <= |u|
    ensures Collect(Collect(s, u[..n]), u[n..]) == Collect(s, u)
  {
    CutHere(u, s, n, |u|);
    assert u[n..][..|u| - n] == u[n..] && u[..|u|] == u;
  }

  // ---- single and double quotes --------------------------------------------------------

  lemma {:induction false} BackslashesSkipOne(u: string, k: nat)
    requires 1 <= k <= |u| && u[0] != '\\'
    ensures Backslashes(u, k) == Backslashes(u[1..], k - 1)
  {
    if k > 1 {
      BackslashesSkipOne(u, k - 1);
    }
  }

  lemma {:induction false} BackslashesSkipTwo(u: string, k: nat)
    requires 2 <= k <= |u| && u[0] == '\\'
    ensures Backslashes(u, k) % 2 == Backslashes(u[2..], k - 2) % 2
  {
    if k == 2 {
      assert Backslashes(u, 1) == 1;
    } else if u[k - 1] == '\\' {
      BackslashesSkipTwo(u, k - 1);
    }
  }

  /** Skipping an escaped pair or a plain character keeps the unescaped quotes. */
  lemma UnescapedSkip(u: string, quote: char, n: nat, k: nat)
    requires u != "" && n == (if u[0] == '\\' then 2 else 1) && n <= k && n <= |u|
    ensures UnescapedQuote(u, quote, k) <==> UnescapedQuote(u[n..], quote, k - n)
  {
    if k < |u| {
      if n == 1 {
        BackslashesSkipOne(u, k);
      } else {
        BackslashesSkipTwo(u, k);
      }
    }
  }

  lemma ClosesLater(u: string, quote: char, n: nat, k: nat)
    requires QuoteCloses(u, quote, k) && u[0] != quote && n == if u[0] == '\\' then 2 else 1
    ensures n <= k && QuoteCloses(u[n..], quote, k - n)
  {
    assert u[0] == '\\' ==> Backslashes(u, 1) == 1 + Backslashes(u, 0);
    UnescapedSkip(u, quote, n, k);
    forall j: nat | j < k - n
      ensures !UnescapedQuote(u[n..], quote, j)
    {
      UnescapedSkip(u, quote, n, j + n);
    }
  }

  lemma QuoteToken(u: string, bol: bool, lx: Lexer, quote: char, dollar: bool)
    requires u != "" && IsQuote(lx, quote)
    ensures NextToken(u, bol, lx, dollar)
            == if u[0] == quote then Token(Kept, 1, lx.(mode := Normal))
               else Token(Kept, if u[0] == '\\' && |u| > 1 then 2 else 1, lx)
  {
  }

  lemma {:induction false} QuotedScan(u: string, bol: bool, s: Scan, quote: char, dollar: bool, k: nat)
    requires ValidLexer(s.lx) && IsQuote(s.lx, quote) && QuoteCloses(u, quote, k)
    ensures ScanText(u, bol, s, dollar) == ScanText(u[k + 1..], false, Closed(s, u[..k + 1]), dollar)
    decreases |u|
  {
    hide NextToken, ScanText;
    QuoteToken(u, bol, s.lx, quote, dollar);
    TextStep(u, bol, s, dollar);
    if u[0] == quote {
      assert UnescapedQuote(u, quote, 0);
    } else {
      var n := if u[0] == '\\' then 2 else 1;
      ClosesLater(u, quote, n, k);
      QuotedScan(u[n..], u[n - 1] == '\n', Collect(s, u[..n]), quote, dollar, k - n);
      CutHere(u, s, n, k + 1);
    }
  }

  lemma {:induction false} QuotedScanOpen(u: string, bol: bool, s: Scan, quote: char, dollar: bool)
    requires ValidLexer(s.lx) && IsQuote(s.lx, quote) && forall k: nat :: !UnescapedQuote(u, quote, k)
    ensures ScanText(u, bol, s, dollar) == Collect(s, u)
    decreases |u|
  {
    hide NextToken;
    if u == "" {
      assert s.stmt + u == s.stmt;
    } else {
      assert u[0] != quote by { assert !UnescapedQuote(u, quote, 0); }
      QuoteToken(u, bol, s.lx, quote, dollar);
      var n := if u[0] == '\\' && |u| > 1 then 2 else 1;
      forall j: nat
        ensures !UnescapedQuote(u[n..], quote, j)
      {
        if j + n < |u| {
          UnescapedSkip(u, quote, n, j + n);
        }
      }
      QuotedScanOpen(u[n..], u[n - 1] == '\n', Collect(s, u[..n]), quote, dollar);
      CutAll(u, s, n);
    }
  }

  // ---- back-ticks and dollar quotes ------------------------------------------------------

  /** What ends the literal the lexer is in. */
  predicate EndsWith(lx: Lexer, p: string) {
    || (lx.mode.Backtick? && p == "`")
    || (lx.mode.DollarQuote? && p == lx.tag && IsTag(p))
  }

  lemma EndToken(u: string, bol: bool, lx: Lexer, p: string, dollar: bool)
    requires u != "" && ValidLexer(lx) && EndsWith(lx, p)
    ensures NextToken(u, bol, lx, dollar)
            == if OccursAt(u, p, 0) then Token(Kept, |p|, Close(lx)) else Token(Kept, 1, lx)
    ensures OccursAt(u, p, 0) ==> 0 < |p| <= |u| && u[|p| - 1] != '\n'
  {
    assert u[0..] == u;
    if StartsWith(u, p) {
      assert u[0] == p[0] && u[|p| - 1] == p[|p| - 1];
    }
    assert p == "`" && u[0] == '`' ==> u[..1] == p;
  }

  lemma OccursLater(u: string, p: string, k: nat)
    requires u != "" && 1 <= k
    ensures OccursAt(u, p, k) <==> OccursAt(u[1..], p, k - 1)
  {
    if k <= |u| {
      assert u[1..][k - 1..] == u[k..];
    }
  }

  lemma FirstLater(u: string, p: string, k: nat)
    requires u != "" && FirstAt(u, p, k) && k > 0
    ensures FirstAt(u[1..], p, k - 1) && !OccursAt(u, p, 0)
  {
    OccursLater(u, p, k);
    forall j: nat | j < k - 1
      ensures !OccursAt(u[1..], p, j)
    {
      OccursLater(u, p, j + 1);
    }
  }

  lemma {:induction false} UntilFirst(u: string, bol: bool, s: Scan, p: string, dollar: bool, k: nat)
    requires ValidLexer(s.lx) && EndsWith(s.lx, p) && FirstAt(u, p, k)
    ensures k + |p| <= |u|
    ensures ScanText(u, bol, s, dollar) == ScanText(u[k + |p|..], false, Closed(s, u[..k + |p|]), dollar)
    decreases |u|
  {
    hide NextToken, ScanText, IsTag;
    EndToken(u, bol, s.lx, p, dollar);
    TextStep(u, bol, s, dollar);
    if k > 0 {
      FirstLater(u, p, k);
      UntilFirst(u[1..], u[0] == '\n', Collect(s, u[..1]), p, dollar, k - 1);
      CutHere(u, s, 1, k + |p|);
    }
  }

  lemma {:induction false} UntilFirstOpen(u: string, bol: bool, s: Scan, p: string, dollar: bool)
    requires ValidLexer(s.lx) && EndsWith(s.lx, p) && forall k: nat :: !OccursAt(u, p, k)
    ensures ScanText(u, bol, s, dollar) == Collect(s, u)
    decreases |u|
  {
    hide NextToken;
    if u == "" {
      assert s.stmt + u == s.stmt;
    } else {
      EndToken(u, bol, s.lx, p, dollar);
      forall j: nat
        ensures !OccursAt(u[1..], p, j)
      {
        OccursLater(u, p, j + 1);
      }
      UntilFirstOpen(u[1..], u[0] == '\n', Collect(s, u[..1]), p, dollar);
      CutAll(u, s, 1);
    }
  }

  // ---- whole literals, opener included --------------------------------------------------------

  lemma {:induction false} TrimKeepsHead(s: string)
    requires s != "" && !IsTrimChar(s[0])
    ensures Trim(s) != "" && Trim(s)[0] == s[0]
    decreases |s|
  {
    if IsTrimChar(s[|s| - 1]) {
      TrimKeepsHead(s[..|s| - 1]);
    }
  }

  /** A line that starts with a quote or a dollar is never a DELIMITER line. */
  lemma OpenerIsNoCommand(u: string)
    requires u != "" && u[0] in {'\'', '"', '`', '$'}
    ensures DelimiterCommand(u[..LineLen(u)]).None?
  {
    hide Trim;
    var line := u[..LineLen(u)];
    assert line != "" && line[0] == u[0];
    TrimKeepsHead(line);
    if DelimiterCommand(line).Some? {
      CommandHead(line);
    }
  }

  lemma CommandHead(line: string)
    requires DelimiterCommand(line).Some?
    ensures Trim(line)[0] == 'D' || Trim(line)[0] == 'd'
  {
    hide Trim;
    var t := Trim(line);
    assert StartsWith(t, "DELIMITER ") ==> t[0] == "DELIMITER "[0];
    assert StartsWith(t, "delimiter ") ==> t[0] == "delimiter "[0];
  }

  /** Where an opening quote or back-tick puts the scanner. */
  function Opened(s: Scan, quote: char): Scan {
    Collect(s, [quote]).(lx := s.lx.(mode := match quote
                                             case '\'' => SingleQuote
                                             case '"' => DoubleQuote
                                             case _ => Backtick))
  }

  lemma OpenerToken(u: string, bol: bool, s: Scan, dollar: bool)
    requires ValidLexer(s.lx) && s.lx.mode.Normal? && !StartsWith(u, s.lx.delim)
    requires u != "" && u[0] in {'\'', '"', '`'}
    ensures ValidLexer(Opened(s, u[0]).lx)
    ensures ScanText(u, bol, s, dollar) == ScanText(u[1..], false, Opened(s, u[0]), dollar)
  {
    hide Trim, DelimiterCommand;
    OpenerIsNoCommand(u);
    assert NextToken(u, bol, s.lx, dollar) == Token(Kept, 1, Opened(s, u[0]).lx);
    assert u[..1] == [u[0]];
  }

  lemma OpenedAndClosed(u: string, s: Scan, m: nat)
    requires s.lx.mode.Normal? && s.lx.tag == "" && 1 <= m <= |u|
    ensures Closed(Opened(s, u[0]), u[1..][..m - 1]) == Collect(s, u[..m])
    ensures u[1..][m - 1..] == u[m..]
  {
    CutHere(u, s, 1, m);
    assert u[..1] == [u[0]];
  }

  /**
   A ' or " literal ends exactly at the first quote that has an even run of
   backslashes before it; from opener to closer its bytes are appended to the one
   pending statement, and nothing is listed meanwhile.
   */
  lemma QuotedLiteralVerbatim(u: string, bol: bool, s: Scan, dollar: bool, k: nat)
    requires ValidLexer(s.lx) && s.lx.mode.Normal? && !StartsWith(u, s.lx.delim)
    requires u != "" && u[0] in {'\'', '"'} && QuoteCloses(u[1..], u[0], k)
    ensures ScanText(u, bol, s, dollar) == ScanText(u[k + 2..], false, Collect(s, u[..k + 2]), dollar)
  {
    hide NextToken, ScanText;
    OpenerToken(u, bol, s, dollar);
    QuotedScan(u[1..], false, Opened(s, u[0]), u[0], dollar, k);
    OpenedAndClosed(u, s, k + 2);
  }

  /** An unclosed literal takes the whole rest of the file into one statement. */
  lemma UnclosedLiteralTakesAll(u: string, bol: bool, s: Scan, dollar: bool)
    requires ValidLexer(s.lx) && s.lx.mode.Normal? && !StartsWith(u, s.lx.delim)
    requires u != "" && u[0] in {'\'', '"'} && forall k: nat :: !UnescapedQuote(u[1..], u[0], k)
    ensures ScanText(u, bol, s, dollar) == Collect(s, u).(lx := Opened(s, u[0]).lx)
  {
    hide NextToken, ScanText;
    OpenerToken(u, bol, s, dollar);
    QuotedScanOpen(u[1..], false, Opened(s, u[0]), u[0], dollar);
    CutAll(u, s, 1);
    assert u[..1] == [u[0]];
  }

  /** A back-tick name ends at the next back-tick; backslashes mean nothing in it. */
  lemma BacktickLiteralVerbatim(u: string, bol: bool, s: Scan, dollar: bool, k: nat)
    requires ValidLexer(s.lx) && s.lx.mode.Normal? && !StartsWith(u, s.lx.delim)
    requires u != "" && u[0] == '`' && FirstAt(u[1..], "`", k)
    ensures ScanText(u, bol, s, dollar) == ScanText(u[k + 2..], false, Collect(s, u[..k + 2]), dollar)
  {
    hide NextToken, ScanText;
    OpenerToken(u, bol, s, dollar);
    UntilFirst(u[1..], false, Opened(s, u[0]), "`", dollar, k);
    OpenedAndClosed(u, s, k + 2);
  }

  lemma TagToken(tag: string, u: string, bol: bool, s: Scan)
    requires ValidLexer(s.lx) && s.lx.mode.Normal? && !StartsWith(tag + u, s.lx.delim)
    requires IsTag(tag)
    ensures ScanText(tag + u, bol, s, true)
            == ScanText(u, false, Collect(s, tag).(lx := s.lx.(mode := DollarQuote, tag := tag)), true)
  {
    hide Trim, DelimiterCommand;
    var v := tag + u;
    assert v[..|tag|] == tag && v[|tag|..] == u && v[|tag| - 1] == '$' && v[0] == '$';
    TagLenUnique(v, |tag|);
    OpenerIsNoCommand(v);
    assert NextToken(v, bol, s.lx, true) == Token(Kept, |tag|, s.lx.(mode := DollarQuote, tag := tag));
  }

  /**
   With dollar quoting on, "$tag$" opens a literal that ends at the first later
   occurrence of the same "$tag$", whatever stands between them.
   */
  lemma DollarLiteralVerbatim(tag: string, u: string, bol: bool, s: Scan, k: nat)
    requires ValidLexer(s.lx) && s.lx.mode.Normal? && !StartsWith(tag + u, s.lx.delim)
    requires IsTag(tag) && FirstAt(u, tag, k)
    ensures k + |tag| <= |u|
    ensures ScanText(tag + u, bol, s, true)
            == ScanText(u[k + |tag|..], false, Collect(s, tag + u[..k + |tag|]), true)
  {
    hide NextToken, ScanText;
    TagToken(tag, u, bol, s);
    var s' := Collect(s, tag).(lx := s.lx.(mode := DollarQuote, tag := tag));
    UntilFirst(u, false, s', tag, true, k);
    Assoc(s.stmt, tag, u[..k + |tag|]);
  }

  /** An unclosed dollar quote takes the whole rest of the file. */
  lemma UnclosedDollarTakesAll(tag: string, u: string, bol: bool, s: Scan)
    requires ValidLexer(s.lx) && s.lx.mode.Normal? && !StartsWith(tag + u, s.lx.delim)
    requires IsTag(tag) && forall k: nat :: !OccursAt(u, tag, k)
    ensures ScanText(tag + u, bol, s, true)
            == Collect(s, tag + u).(lx := s.lx.(mode := DollarQuote, tag := tag))
  {
    hide NextToken, ScanText;
    TagToken(tag, u, bol, s);
    UntilFirstOpen(u, false, Collect(s, tag).(lx := s.lx.(mode := DollarQuote, tag := tag)), tag, true);
    Assoc(s.stmt, tag, u);
  }
}
