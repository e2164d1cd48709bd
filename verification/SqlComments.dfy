/** Comments, delimiters and DELIMITER lines: what the text between statements does to the scan. */
module SqlComments {
  import opened Strings
  import opened SqlLexer
  import opened SqlScan
  import opened SqlLiterals

  /** "#", "//", or "--" followed by a space character. */
  predicate OpensLineComment(u: string) {
    || StartsWith(u, "#") || StartsWith(u, "//")
    || exists c :: IsTrimChar(c) && StartsWith(u, ['-', '-', c])
  }

  predicate IsOpenerChar(c: char) {
    c == '#' || c == '/' || c == '-'
  }

  lemma OpenerRead(u: string)
    requires OpensLineComment(u)
    ensures u != "" && StartsLineComment(u) && IsOpenerChar(u[0])
    ensures u[0] != '#' ==> |u| > 1 && u[1] == u[0]
  {
    assert u != "";
    if StartsWith(u, "//") {
      assert u[0] == "//"[0] && u[1] == "//"[1];
    } else if !StartsWith(u, "#") {
      var c :| IsTrimChar(c) && StartsWith(u, ['-', '-', c]);
      assert u[0] == ['-', '-', c][0] && u[1] == ['-', '-', c][1] && u[2] == ['-', '-', c][2];
    }
  }

  lemma CommentIsNoCommand(u: string)
    requires u != "" && IsOpenerChar(u[0])
    ensures DelimiterCommand(u[..LineLen(u)]).None?
  {
    hide Trim;
    var line := u[..LineLen(u)];
    assert line != "" && line[0] == u[0];
    TrimKeepsHead(line);
    if DelimiterCommand(line).Some? {
      CommandHead(line);
    }
  }

  // ---- line comments --------------------------------------------------------------------------

  lemma {:induction false} UntilNewline(u: string, s: Scan, dollar: bool)
    requires ValidLexer(s.lx) && s.lx.mode.LineComment? && LineLen(u) < |u|
    ensures ScanText(u, false, s, dollar)
            == ScanText(u[LineLen(u) + 1..], true, s.(lx := s.lx.(mode := Normal)), dollar)
    decreases |u|
  {
    hide ScanText, LineLen, DelimiterCommand;
    TextStep(u, false, s, dollar);
    var n := LineLen(u);
    if u[0] == '\n' {
      LineLenUnique(u, 0);
    } else {
      var rest := u[1..];
      LineLenUnique(rest, n - 1);
      UntilNewline(rest, s, dollar);
      assert rest[n..] == u[n + 1..];
    }
  }

  lemma LineCommentToken(u: string, bol: bool, s: Scan, dollar: bool) returns (n: nat)
    requires ValidLexer(s.lx) && s.lx.mode.Normal? && !StartsWith(u, s.lx.delim) && OpensLineComment(u)
    ensures 0 < n <= LineLen(u)
    ensures ScanText(u, bol, s, dollar) == ScanText(u[n..], false, s.(lx := s.lx.(mode := LineComment)), dollar)
  {
    hide Trim, DelimiterCommand, OpensLineComment;
    OpenerRead(u);
    CommentIsNoCommand(u);
    TextStep(u, bol, s, dollar);
    n := if u[0] == '#' then 1 else 2;
    assert forall i | 0 <= i < n :: u[i] != '\n';
  }

  /**
   A line comment is dropped together with its newline: what follows is read as the
   beginning of a line, with the statement pending as it was before the comment.
   */
  lemma LineCommentDropped(u: string, bol: bool, s: Scan, dollar: bool)
    requires ValidLexer(s.lx) && s.lx.mode.Normal? && !StartsWith(u, s.lx.delim)
    requires OpensLineComment(u) && LineLen(u) < |u|
    ensures ScanText(u, bol, s, dollar) == ScanText(u[LineLen(u) + 1..], true, s, dollar)
  {
    hide ScanText, OpensLineComment, LineLen;
    var n := LineCommentToken(u, bol, s, dollar);
    var rest, m := u[n..], LineLen(u);
    LineLenUnique(rest, m - n);
    UntilNewline(rest, s.(lx := s.lx.(mode := LineComment)), dollar);
    assert rest[m - n + 1..] == u[m + 1..];
    assert s.lx.(mode := Normal) == s.lx;
  }

  // ---- block comments --------------------------------------------------------------------------

  lemma BlockToken(u: string, bol: bool, lx: Lexer, dollar: bool)
    requires u != "" && lx.mode.BlockComment?
    ensures NextToken(u, bol, lx, dollar)
            == if OccursAt(u, "*/", 0) then Token(Comment, 2, lx.(mode := Normal)) else Token(Comment, 1, lx)
    ensures OccursAt(u, "*/", 0) ==> |u| > 1 && u[1] == '/'
  {
    assert u[0..] == u;
    if StartsWith(u, "*/") {
      assert u[0] == "*/"[0] && u[1] == "*/"[1];
    }
    assert |u| > 1 && u[0] == '*' && u[1] == '/' ==> u[..2] == "*/";
  }

  lemma {:induction false} UntilClosed(u: string, bol: bool, s: Scan, dollar: bool, k: nat)
    requires ValidLexer(s.lx) && s.lx.mode.BlockComment? && FirstAt(u, "*/", k)
    ensures k + 2 <= |u|
    ensures ScanText(u, bol, s, dollar) == ScanText(u[k + 2..], false, s.(lx := s.lx.(mode := Normal)), dollar)
    decreases |u|
  {
    hide NextToken, ScanText;
    BlockToken(u, bol, s.lx, dollar);
    TextStep(u, bol, s, dollar);
    if k > 0 {
      FirstLater(u, "*/", k);
      UntilClosed(u[1..], u[0] == '\n', s, dollar, k - 1);
      assert u[1..][k + 1..] == u[k + 2..];
    }
  }

  lemma {:induction false} NeverClosed(u: string, bol: bool, s: Scan, dollar: bool)
    requires ValidLexer(s.lx) && s.lx.mode.BlockComment? && forall k: nat :: !OccursAt(u, "*/", k)
    ensures ScanText(u, bol, s, dollar) == s
    decreases |u|
  {
    hide NextToken;
    if u != "" {
      BlockToken(u, bol, s.lx, dollar);
      forall j: nat
        ensures !OccursAt(u[1..], "*/", j)
      {
        OccursLater(u, "*/", j + 1);
      }
      NeverClosed(u[1..], u[0] == '\n', s, dollar);
    }
  }

  lemma BlockOpener(u: string, bol: bool, s: Scan, dollar: bool)
    requires ValidLexer(s.lx) && s.lx.mode.Normal? && !StartsWith(u, s.lx.delim) && StartsWith(u, "/*")
    ensures ScanText(u, bol, s, dollar) == ScanText(u[2..], false, s.(lx := s.lx.(mode := BlockComment)), dollar)
  {
    hide Trim, DelimiterCommand;
    assert u[0] == "/*"[0] && u[1] == "/*"[1];
    CommentIsNoCommand(u);
    assert NextToken(u, bol, s.lx, dollar) == Token(Comment, 2, s.lx.(mode := BlockComment));
    hide NextToken, ScanText, StartsWith;
    TextStep(u, bol, s, dollar);
  }

  /**
   A block comment is dropped up to the first end mark behind its opener, which the
   opener's own star cannot begin; nothing between them is read as anything else.
   */
  lemma BlockCommentDropped(u: string, bol: bool, s: Scan, dollar: bool, k: nat)
    requires ValidLexer(s.lx) && s.lx.mode.Normal? && !StartsWith(u, s.lx.delim)
    requires StartsWith(u, "/*") && FirstAt(u[2..], "*/", k)
    ensures k + 4 <= |u|
    ensures ScanText(u, bol, s, dollar) == ScanText(u[k + 4..], false, s, dollar)
  {
    hide ScanText, FirstAt;
    BlockOpener(u, bol, s, dollar);
    UntilClosed(u[2..], false, s.(lx := s.lx.(mode := BlockComment)), dollar, k);
    assert u[2..][k + 2..] == u[k + 4..];
    assert s.lx.(mode := Normal) == s.lx;
  }

  /** Without an end mark the whole rest of the file is comment. */
  lemma UnclosedCommentTakesAll(u: string, bol: bool, s: Scan, dollar: bool)
    requires ValidLexer(s.lx) && s.lx.mode.Normal? && !StartsWith(u, s.lx.delim)
    requires StartsWith(u, "/*") && forall k: nat :: !OccursAt(u[2..], "*/", k)
    ensures ScanText(u, bol, s, dollar) == s.(lx := s.lx.(mode := BlockComment))
  {
    hide ScanText;
    BlockOpener(u, bol, s, dollar);
    NeverClosed(u[2..], false, s.(lx := s.lx.(mode := BlockComment)), dollar);
  }

  // ---- delimiters ----------------------------------------------------------------------------------

  /** Unless the line is a DELIMITER line, the delimiter goes before anything else it may look like. */
  lemma DelimiterEndsStatement(u: string, bol: bool, s: Scan, dollar: bool)
    requires ValidLexer(s.lx) && s.lx.mode.Normal? && StartsWith(u, s.lx.delim)
    requires bol ==> DelimiterCommand(u[..LineLen(u)]).None?
    ensures ScanText(u, bol, s, dollar)
            == ScanText(u[|s.lx.delim|..], false, Scan(s.lx, "", Push(s.queries, s.stmt)), dollar)
  {
    hide Trim, DelimiterCommand;
    var n := |s.lx.delim|;
    TextStep(u, bol, s, dollar);
    assert u[n - 1] == s.lx.delim[n - 1];
  }

  /** At a line start in Normal mode a line of the command's form changes the delimiter, and that is all. */
  lemma CommandChangesDelimiter(line: string, rest: string, s: Scan, dollar: bool, a: string, word: string, b: string,
                                d: string, c: string)
    requires ValidLexer(s.lx) && s.lx.mode.Normal? && '\n' !in line && CommandForm(line, a, word, b, d, c)
    ensures ValidLexer(s.lx.(delim := d))
    ensures ScanText(line + "\n" + rest, true, s, dollar) == ScanText(rest, true, s.(lx := s.lx.(delim := d)), dollar)
  {
    CommandFormRead(line, a, word, b, d, c);
    hide CommandForm, DelimiterCommand, ScanText;
    CommandOnOneLine(line);
    var u := line + "\n" + rest;
    assert u[|line|] == '\n' && u[..|line|] == line;
    LineLenUnique(u, |line|);
    TextStep(u, true, s, dollar);
    assert u[|line| + 1..] == rest;
  }

  // ---- everything else -----------------------------------------------------------------------------

  /** Nothing of what this module and SqlLiterals describe stands at the head of the text. */
  ghost predicate Ordinary(u: string, bol: bool, lx: Lexer, dollar: bool) {
    && u != "" && u[0] !in {'\'', '"', '`'}
    && !StartsWith(u, lx.delim) && !OpensLineComment(u) && !StartsWith(u, "/*")
    && (dollar ==> forall m | 0 <= m <= |u| :: !IsTag(u[..m]))
    && (bol ==> DelimiterCommand(u[..LineLen(u)]).None?)
  }

  lemma OrdinaryOpensNothing(u: string)
    requires u != "" && !OpensLineComment(u) && !StartsWith(u, "/*")
    ensures !StartsLineComment(u) && !StartsBlockComment(u)
  {
    assert u[0] == '#' ==> u[..1] == "#";
    assert |u| > 1 ==> u[..2] == [u[0], u[1]];
    assert |u| > 2 ==> u[..3] == [u[0], u[1], u[2]];
    if |u| > 2 && IsTrimChar(u[2]) {
      assert !StartsWith(u, ['-', '-', u[2]]);
    }
  }

  /** Any other byte is collected and changes nothing else. */
  lemma OrdinaryByteKept(u: string, bol: bool, s: Scan, dollar: bool)
    requires ValidLexer(s.lx) && s.lx.mode.Normal? && Ordinary(u, bol, s.lx, dollar)
    ensures ScanText(u, bol, s, dollar) == ScanText(u[1..], u[0] == '\n', s.(stmt := s.stmt + [u[0]]), dollar)
  {
    hide DelimiterCommand, IsTag, StartsLineComment, StartsBlockComment, OpensLineComment;
    OrdinaryOpensNothing(u);
    assert NextToken(u, bol, s.lx, dollar) == Token(Kept, 1, s.lx);
    hide NextToken, Ordinary, ScanText;
    TextStep(u, bol, s, dollar);
    assert u[..1] == [u[0]];
  }
}
