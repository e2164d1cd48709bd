/** What a statement that survives printing looks like, as a grammar of literals and ordinary bytes. */
module SqlStatement {
  import opened Strings
  import opened SqlLexer
  import opened SqlScan
  import opened SqlInvariants
  import opened SqlLiterals
  import opened SqlComments
  import opened SqlRoundTrip

  // ---- the grammar ---------------------------------------------------------------------------

  /** "$tag$" of length `h`, then anything, then the first later "$tag$", `m` bytes in all. */
  ghost predicate DollarLiteral(u: string, h: nat, m: nat) {
    h <= m - h && m <= |u| && IsTag(u[..h]) && FirstAt(u[h..], u[..h], m - 2 * h)
  }

  /** A whole literal of `m` bytes stands at the head of the text. */
  ghost predicate Literal(u: string, m: nat, dollar: bool) {
    || (2 <= m <= |u| && u[0] in {'\'', '"'} && QuoteCloses(u[1..], u[0], m - 2))
    || (2 <= m <= |u| && u[0] == '`' && FirstAt(u[1..], "`", m - 2))
    || (dollar && exists h: nat :: DollarLiteral(u, h, m))
  }

  /**
   The first `n` bytes of the text are literals and bytes that begin nothing else: no
   ";" outside a literal, no comment, no DELIMITER line, no literal left open.
   */
  ghost predicate Statement(u: string, n: nat, bol: bool, dollar: bool)
    requires n <= |u|
    decreases n
  {
    || n == 0
    || (Ordinary(u, bol, START, dollar) && Statement(u[1..], n - 1, u[0] == '\n', dollar))
    || (!StartsWith(u, ";")
        && exists m: nat | 0 < m <= n :: Literal(u, m, dollar) && Statement(u[m..], n - m, false, dollar))
  }

  // ---- inside a literal -------------------------------------------------------------------------

  predicate Inside(lx: Lexer) {
    ValidLexer(lx) && InLiteral(lx.mode) && lx.delim == ";"
  }

  function Closer(lx: Lexer): string {
    match lx.mode
    case SingleQuote => "'"
    case DoubleQuote => "\""
    case Backtick => "`"
    case _ => lx.tag
  }

  /** The literal the lexer is in ends with the first `m` bytes. */
  predicate ClosesAfter(u: string, lx: Lexer, m: nat) {
    var p := Closer(lx);
    && |p| <= m
    && if lx.mode in {SingleQuote, DoubleQuote} then p != "" && QuoteCloses(u, p[0], m - 1)
       else FirstAt(u, p, m - |p|)
  }

  /** One token inside a literal: it closes the literal, or the closing is as far off as before. */
  predicate Advances(u: string, lx: Lexer, t: Token, m: nat) {
    && t == Token(Kept, t.len, lx) && 0 < t.len <= |u|
    && (ClosesAfter(u, lx, m) <==> m > t.len && ClosesAfter(u[t.len..], lx, m - t.len))
  }

  /** The token that closes the literal. */
  predicate Finishes(u: string, lx: Lexer, t: Token, m: nat) {
    && t == Token(Kept, t.len, START) && 0 < t.len <= |u| && u[t.len - 1] != '\n'
    && (ClosesAfter(u, lx, m) <==> m == t.len)
  }

  lemma ClosesIff(u: string, quote: char, n: nat, k: nat)
    requires u != "" && u[0] != quote && n == (if u[0] == '\\' && |u| > 1 then 2 else 1)
    ensures QuoteCloses(u, quote, k) <==> n <= k && QuoteCloses(u[n..], quote, k - n)
  {
    if QuoteCloses(u, quote, k) {
      ClosesLater(u, quote, n, k);
    }
    if n <= k && QuoteCloses(u[n..], quote, k - n) {
      UnescapedSkip(u, quote, n, k);
      forall j: nat | j < k
        ensures !UnescapedQuote(u, quote, j)
      {
        if j >= n {
          UnescapedSkip(u, quote, n, j);
        } else if j == 1 {
          assert Backslashes(u, 1) == 1 + Backslashes(u, 0);
        }
      }
    }
  }

  lemma FirstIff(u: string, p: string, k: nat)
    requires u != "" && !OccursAt(u, p, 0)
    ensures FirstAt(u, p, k) <==> 1 <= k && FirstAt(u[1..], p, k - 1)
  {
    if FirstAt(u, p, k) {
      FirstLater(u, p, k);
    }
    if 1 <= k && FirstAt(u[1..], p, k - 1) {
      OccursLater(u, p, k);
      forall j: nat | j < k
        ensures !OccursAt(u, p, j)
      {
        if j > 0 {
          OccursLater(u, p, j);
        }
      }
    }
  }

  lemma QuoteStep(u: string, bol: bool, lx: Lexer, dollar: bool, m: nat)
    requires Inside(lx) && lx.mode in {SingleQuote, DoubleQuote} && u != ""
    ensures var t := NextToken(u, bol, lx, dollar);
            Finishes(u, lx, t, m) || Advances(u, lx, t, m)
  {
    hide NextToken, UnescapedQuote;
    var q := Closer(lx)[0];
    QuoteToken(u, bol, lx, q, dollar);
    if u[0] == q {
      assert UnescapedQuote(u, q, 0) by { HeadUnescaped(u, q); }
    } else {
      var n := if u[0] == '\\' && |u| > 1 then 2 else 1;
      if m > 0 {
        ClosesIff(u, q, n, m - 1);
      }
    }
  }

  lemma HeadUnescaped(u: string, quote: char)
    requires u != "" && u[0] == quote
    ensures UnescapedQuote(u, quote, 0)
  {
  }

  lemma OtherStep(u: string, bol: bool, lx: Lexer, dollar: bool, m: nat)
    requires Inside(lx) && lx.mode in {Backtick, DollarQuote} && u != ""
    ensures var t := NextToken(u, bol, lx, dollar);
            Finishes(u, lx, t, m) || Advances(u, lx, t, m)
  {
    hide NextToken, IsTag;
    var p := Closer(lx);
    EndToken(u, bol, lx, p, dollar);
    hide OccursAt;
    if OccursAt(u, p, 0) {
      assert FirstAt(u, p, 0);
    } else if m >= |p| {
      FirstIff(u, p, m - |p|);
    }
  }

  lemma InsideStep(u: string, bol: bool, lx: Lexer, dollar: bool, m: nat)
    requires Inside(lx) && u != ""
    ensures var t := NextToken(u, bol, lx, dollar);
            Finishes(u, lx, t, m) || Advances(u, lx, t, m)
  {
    hide NextToken, ClosesAfter, Advances, Finishes;
    if lx.mode in {SingleQuote, DoubleQuote} {
      QuoteStep(u, bol, lx, dollar, m);
    } else {
      OtherStep(u, bol, lx, dollar, m);
    }
  }

  lemma ClosesInText(u: string, lx: Lexer, m: nat)
    requires Inside(lx) && ClosesAfter(u, lx, m)
    ensures 0 < m <= |u|
  {
  }

  lemma InsideIs(lx: Lexer)
    requires Inside(lx)
    ensures ValidLexer(lx) && ValidLexer(START) && lx != START && lx.mode != Normal
  {
  }

  lemma DropDrop(u: string, c: nat, k: nat)
    requires c + k <= |u|
    ensures u[c..][k..] == u[c + k..]
  {
  }

  lemma KeepsAllIff(u: string, n: nat, bol: bool, lx: Lexer, dollar: bool, t: Token)
    requires ValidLexer(lx) && n <= |u| && u != ""
    requires t == NextToken(u, bol, lx, dollar) && t.kind.Kept? && ValidLexer(t.next) && 0 < t.len
    ensures 0 < n < t.len ==> !KeepsAll(u, n, bol, lx, dollar)
    ensures t.len <= n ==>
              (KeepsAll(u, n, bol, lx, dollar)
               <==> KeepsAll(u[t.len..], n - t.len, u[t.len - 1] == '\n', t.next, dollar))
  {
    hide NextToken, ValidLexer;
  }

  lemma InsideCloses(u: string, bol: bool, lx: Lexer, dollar: bool) returns (t: Token)
    requires Inside(lx) && u != ""
    ensures t == NextToken(u, bol, lx, dollar) && t.kind.Kept? && 0 < t.len <= |u|
    ensures t.next == lx || (t.next == START && u[t.len - 1] != '\n')
    ensures t.next == START ==> forall m: nat :: ClosesAfter(u, lx, m) <==> m == t.len
    ensures t.next == lx ==>
              forall m: nat :: ClosesAfter(u, lx, m) <==> m > t.len && ClosesAfter(u[t.len..], lx, m - t.len)
  {
    InsideIs(lx);
    hide NextToken, ClosesAfter, Inside, ValidLexer;
    t := NextToken(u, bol, lx, dollar);
    InsideStep(u, bol, lx, dollar, 0);
    forall m: nat
      ensures if t.next == START then ClosesAfter(u, lx, m) <==> m == t.len
              else ClosesAfter(u, lx, m) <==> m > t.len && ClosesAfter(u[t.len..], lx, m - t.len)
    {
      InsideStep(u, bol, lx, dollar, m);
    }
  }

  /** What is left to read after one token, and whether it closed the literal. */
  lemma InsideToken(u: string, n: nat, bol: bool, lx: Lexer, dollar: bool)
      returns (done: bool, c: nat, rest: string, bol': bool)
    requires Inside(lx) && u != "" && n <= |u|
    ensures ValidLexer(lx) && 0 < c <= |u| && rest == u[c..]
    ensures 0 < n < c ==> !KeepsAll(u, n, bol, lx, dollar)
    ensures done ==>
              && (c <= n ==> (KeepsAll(u, n, bol, lx, dollar) <==> KeepsAll(rest, n - c, false, START, dollar)))
              && forall m: nat :: ClosesAfter(u, lx, m) <==> m == c
    ensures !done ==>
              && (c <= n ==> (KeepsAll(u, n, bol, lx, dollar) <==> KeepsAll(rest, n - c, bol', lx, dollar)))
              && forall m: nat :: ClosesAfter(u, lx, m) <==> m > c && ClosesAfter(rest, lx, m - c)
  {
    InsideIs(lx);
    hide NextToken, ClosesAfter, Inside, ValidLexer, KeepsAll;
    var t := InsideCloses(u, bol, lx, dollar);
    done, c := t.next == START, t.len;
    rest, bol' := u[c..], u[c - 1] == '\n';
    KeepsAllIff(u, n, bol, lx, dollar, t);
  }

  lemma KeptIsLong(u: string, n: nat, bol: bool, lx: Lexer, dollar: bool)
    requires Inside(lx) && n <= |u| && KeepsAll(u, n, bol, lx, dollar)
    ensures n > 0 && u != ""
  {
  }

  /** If all is kept, the literal is closed within it, and what follows is kept from Normal mode. */
  lemma {:induction false} KeptCloses(u: string, n: nat, bol: bool, lx: Lexer, dollar: bool) returns (m: nat)
    requires Inside(lx) && n <= |u| && KeepsAll(u, n, bol, lx, dollar)
    ensures 0 < m <= n && ClosesAfter(u, lx, m) && KeepsAll(u[m..], n - m, false, START, dollar)
    decreases n
  {
    hide ClosesAfter, KeepsAll, Inside, ValidLexer;
    KeptIsLong(u, n, bol, lx, dollar);
    var done, c, rest, bol' := InsideToken(u, n, bol, lx, dollar);
    if done {
      m := c;
    } else {
      var k := KeptCloses(rest, n - c, bol', lx, dollar);
      m := c + k;
      DropDrop(u, c, k);
      assert m - c == k && n - m == n - c - k;
    }
  }

  lemma {:induction false} ClosedKeeps(u: string, n: nat, bol: bool, lx: Lexer, dollar: bool, m: nat)
    requires Inside(lx) && m <= n <= |u| && ClosesAfter(u, lx, m)
    requires KeepsAll(u[m..], n - m, false, START, dollar)
    ensures KeepsAll(u, n, bol, lx, dollar)
    decreases n
  {
    ClosesInText(u, lx, m);
    hide ClosesAfter, KeepsAll, Inside, ValidLexer;
    var done, c, rest, bol' := InsideToken(u, n, bol, lx, dollar);
    if !done {
      var k := m - c;
      DropDrop(u, c, k);
      assert n - c - k == n - m;
      ClosedKeeps(rest, n - c, bol', lx, dollar, k);
    }
  }

  // ---- at the head of a literal --------------------------------------------------------------------

  predicate OpensLiteral(u: string, dollar: bool) {
    u != "" && !StartsWith(u, ";") && (u[0] in {'\'', '"', '`'} || (dollar && TagLen(u) > 0))
  }

  lemma DollarHead(u: string, h: nat, m: nat)
    requires DollarLiteral(u, h, m)
    ensures u != "" && u[0] == '$' && TagLen(u) == h
  {
    assert u[..h][0] == u[0];
    TagLenUnique(u, h);
  }

  lemma QuoteOpens(u: string, bol: bool, dollar: bool) returns (lx: Lexer)
    requires u != "" && !StartsWith(u, ";") && u[0] in {'\'', '"', '`'}
    ensures Inside(lx) && NextToken(u, bol, START, dollar) == Token(Kept, 1, lx)
    ensures forall m: nat :: Literal(u, m, dollar) <==> m > 1 && ClosesAfter(u[1..], lx, m - 1)
  {
    hide Trim, DelimiterCommand;
    OpenerIsNoCommand(u);
    lx := Opened(INIT, u[0]).lx;
    assert NextToken(u, bol, START, dollar) == Token(Kept, 1, lx);
    hide NextToken, QuoteCloses, FirstAt;
    forall h: nat, m: nat
      ensures !DollarLiteral(u, h, m)
    {
      if DollarLiteral(u, h, m) {
        DollarHead(u, h, m);
      }
    }
    forall m: nat
      ensures Literal(u, m, dollar) <==> m > 1 && ClosesAfter(u[1..], lx, m - 1)
    {
      if m > 1 && ClosesAfter(u[1..], lx, m - 1) {
        ClosesInText(u[1..], lx, m - 1);
      }
      hide DollarLiteral;
    }
  }

  lemma TagNext(u: string, bol: bool) returns (lx: Lexer)
    requires u != "" && !StartsWith(u, ";") && TagLen(u) > 0
    ensures lx == Lexer(DollarQuote, u[..TagLen(u)], ";") && Inside(lx)
    ensures NextToken(u, bol, START, true) == Token(Kept, TagLen(u), lx)
    ensures u[0] == '$' == u[TagLen(u) - 1]
  {
    hide Trim, DelimiterCommand;
    var h := TagLen(u);
    var tag := u[..h];
    assert tag[0] == u[0] && tag[h - 1] == u[h - 1];
    OpenerIsNoCommand(u);
    lx := Lexer(DollarQuote, tag, ";");
  }

  lemma DollarIs(u: string, lx: Lexer, g: nat, m: nat)
    requires TagLen(u) > 0 && lx == Lexer(DollarQuote, u[..TagLen(u)], ";")
    ensures DollarLiteral(u, g, m)
            <==> g == TagLen(u) && m > TagLen(u) && ClosesAfter(u[TagLen(u)..], lx, m - TagLen(u))
  {
    hide FirstAt, TagLen;
    var h := TagLen(u);
    if DollarLiteral(u, g, m) {
      DollarHead(u, g, m);
    }
    hide IsTag;
    assert g == h && m > h ==> (ClosesAfter(u[h..], lx, m - h) <==> h <= m - h && FirstAt(u[h..], u[..h], m - 2 * h));
    if m >= 2 * h && FirstAt(u[h..], u[..h], m - 2 * h) {
      FirstInText(u[h..], u[..h], m - 2 * h);
    }
  }

  lemma FirstInText(u: string, p: string, k: int)
    requires k >= 0 && FirstAt(u, p, k)
    ensures k + |p| <= |u|
  {
  }

  lemma TagOpens(u: string, bol: bool) returns (lx: Lexer)
    requires u != "" && !StartsWith(u, ";") && TagLen(u) > 0
    ensures Inside(lx) && NextToken(u, bol, START, true) == Token(Kept, TagLen(u), lx) && u[TagLen(u) - 1] == '$'
    ensures forall m: nat :: Literal(u, m, true) <==> m > TagLen(u) && ClosesAfter(u[TagLen(u)..], lx, m - TagLen(u))
  {
    hide NextToken, TagLen, DollarLiteral, ClosesAfter, QuoteCloses, FirstAt, Inside;
    lx := TagNext(u, bol);
    var h := TagLen(u);
    forall m: nat
      ensures Literal(u, m, true) <==> m > h && ClosesAfter(u[h..], lx, m - h)
    {
      forall g: nat
        ensures DollarLiteral(u, g, m) <==> g == h && m > h && ClosesAfter(u[h..], lx, m - h)
      {
        DollarIs(u, lx, g, m);
      }
      assert DollarLiteral(u, h, m) <==> m > h && ClosesAfter(u[h..], lx, m - h);
    }
  }

  lemma LiteralOpens(u: string, bol: bool, dollar: bool) returns (h: nat, lx: Lexer)
    requires OpensLiteral(u, dollar)
    ensures 0 < h <= |u| && u[h - 1] != '\n'
    ensures Inside(lx) && NextToken(u, bol, START, dollar) == Token(Kept, h, lx)
    ensures forall m: nat :: Literal(u, m, dollar) <==> m > h && ClosesAfter(u[h..], lx, m - h)
  {
    hide NextToken, Literal, ClosesAfter;
    if u[0] in {'\'', '"', '`'} {
      h := 1;
      lx := QuoteOpens(u, bol, dollar);
    } else {
      h := TagLen(u);
      lx := TagOpens(u, bol);
    }
  }

  // ---- anywhere else ------------------------------------------------------------------------------------

  lemma LiteralHead(u: string, m: nat, dollar: bool)
    requires Literal(u, m, dollar)
    ensures u != "" && (u[0] in {'\'', '"', '`'} || (dollar && TagLen(u) > 0))
  {
    hide QuoteCloses, FirstAt;
    if h: nat :| DollarLiteral(u, h, m) {
      hide IsTag;
      DollarHead(u, h, m);
    }
  }

  lemma NormalToken(u: string, bol: bool, dollar: bool)
    requires u != "" && !OpensLiteral(u, dollar)
    ensures var t := NextToken(u, bol, START, dollar);
            t.kind.Kept? <==> Ordinary(u, bol, START, dollar)
    ensures Ordinary(u, bol, START, dollar) ==> NextToken(u, bol, START, dollar) == Token(Kept, 1, START)
  {
    CommentHeads(u);
    assert TagLen(u) == 0 <==> forall m | 0 <= m <= |u| :: !IsTag(u[..m]);
    hide DelimiterCommand, IsTag, StartsLineComment, StartsBlockComment, OpensLineComment, TagLen;
  }

  lemma CommentHeads(u: string)
    requires u != ""
    ensures StartsLineComment(u) || StartsBlockComment(u) <==> OpensLineComment(u) || StartsWith(u, "/*")
  {
    if OpensLineComment(u) {
      OpenerRead(u);
    } else if StartsWith(u, "/*") {
      assert u[0] == "/*"[0] && u[1] == "/*"[1];
    } else {
      OrdinaryOpensNothing(u);
    }
  }

  lemma LiteralNotOrdinary(u: string, bol: bool, dollar: bool)
    requires OpensLiteral(u, dollar)
    ensures !Ordinary(u, bol, START, dollar)
  {
    assert dollar && TagLen(u) > 0 ==> IsTag(u[..TagLen(u)]);
    hide IsTag, DelimiterCommand, OpensLineComment;
  }

  // ---- the grammar is exact -------------------------------------------------------------------------------

  /** A literal in front of what is kept is kept with it. */
  lemma LiteralKept(u: string, n: nat, bol: bool, dollar: bool, m: nat)
    requires m <= n <= |u| && OpensLiteral(u, dollar) && Literal(u, m, dollar)
    requires KeepsAll(u[m..], n - m, false, START, dollar)
    ensures KeepsAll(u, n, bol, START, dollar)
  {
    hide NextToken, Literal, ClosesAfter, KeepsAll, OpensLiteral, Inside, ValidLexer;
    var h, lx := LiteralOpens(u, bol, dollar);
    InsideIs(lx);
    var rest, k := u[h..], m - h;
    DropDrop(u, h, k);
    assert n - h - k == n - m;
    ClosedKeeps(rest, n - h, false, lx, dollar, k);
    KeepsAllIff(u, n, bol, START, dollar, Token(Kept, h, lx));
  }

  /** If what begins with a literal is kept, the whole literal is, and then the rest. */
  lemma LiteralFound(u: string, n: nat, bol: bool, dollar: bool) returns (m: nat)
    requires 0 < n <= |u| && OpensLiteral(u, dollar) && KeepsAll(u, n, bol, START, dollar)
    ensures 0 < m <= n && Literal(u, m, dollar) && KeepsAll(u[m..], n - m, false, START, dollar)
  {
    hide NextToken, Literal, ClosesAfter, KeepsAll, OpensLiteral, Inside;
    var h, lx := LiteralOpens(u, bol, dollar);
    InsideIs(lx);
    hide ValidLexer;
    KeepsAllIff(u, n, bol, START, dollar, Token(Kept, h, lx));
    var rest := u[h..];
    var k := KeptCloses(rest, n - h, false, lx, dollar);
    m := h + k;
    DropDrop(u, h, k);
    assert m - h == k && n - m == n - h - k;
  }

  lemma OrdinaryKept(u: string, n: nat, bol: bool, dollar: bool)
    requires 0 < n <= |u| && !OpensLiteral(u, dollar)
    ensures KeepsAll(u, n, bol, START, dollar)
            <==> Ordinary(u, bol, START, dollar) && KeepsAll(u[1..], n - 1, u[0] == '\n', START, dollar)
  {
    hide NextToken, Ordinary, OpensLiteral;
    NormalToken(u, bol, dollar);
    if Ordinary(u, bol, START, dollar) {
      hide KeepsAll;
      KeepsAllIff(u, n, bol, START, dollar, Token(Kept, 1, START));
    }
  }

  lemma NothingToKeep(u: string, bol: bool, dollar: bool)
    ensures KeepsAll(u, 0, bol, START, dollar)
  {
  }

  lemma OpensIs(u: string, m: nat, dollar: bool)
    requires !StartsWith(u, ";") && Literal(u, m, dollar)
    ensures OpensLiteral(u, dollar)
  {
    LiteralHead(u, m, dollar);
  }

  lemma {:induction false} StatementIsKept(u: string, n: nat, bol: bool, dollar: bool)
    requires n <= |u| && Statement(u, n, bol, dollar)
    ensures KeepsAll(u, n, bol, START, dollar)
    decreases n
  {
    hide NextToken, Ordinary, Literal, OpensLiteral, KeepsAll, StartsWith;
    if n == 0 {
      NothingToKeep(u, bol, dollar);
    } else if Ordinary(u, bol, START, dollar) && Statement(u[1..], n - 1, u[0] == '\n', dollar) {
      StatementIsKept(u[1..], n - 1, u[0] == '\n', dollar);
      hide Statement;
      if OpensLiteral(u, dollar) {
        LiteralNotOrdinary(u, bol, dollar);
      } else {
        OrdinaryKept(u, n, bol, dollar);
      }
    } else {
      var m: nat :| 0 < m <= n && Literal(u, m, dollar) && Statement(u[m..], n - m, false, dollar);
      StatementIsKept(u[m..], n - m, false, dollar);
      hide Statement;
      OpensIs(u, m, dollar);
      LiteralKept(u, n, bol, dollar, m);
    }
  }

  lemma NoSemicolon(u: string, dollar: bool)
    requires OpensLiteral(u, dollar)
    ensures !StartsWith(u, ";")
  {
  }

  lemma {:induction false} KeptIsStatement(u: string, n: nat, bol: bool, dollar: bool)
    requires n <= |u| && KeepsAll(u, n, bol, START, dollar)
    ensures Statement(u, n, bol, dollar)
    decreases n
  {
    hide NextToken, Ordinary, Literal, KeepsAll, OpensLiteral, StartsWith;
    if n > 0 && OpensLiteral(u, dollar) {
      var m := LiteralFound(u, n, bol, dollar);
      NoSemicolon(u, dollar);
      KeptIsStatement(u[m..], n - m, false, dollar);
    } else if n > 0 {
      OrdinaryKept(u, n, bol, dollar);
      KeptIsStatement(u[1..], n - 1, u[0] == '\n', dollar);
    }
  }

  // ---- from a statement to its place in the list ----------------------------------------------------------

  /**
   What is kept up to the delimiter, whatever the delimiter is, is collected behind what
   was pending; all of it together is listed as one query, and the next statement begins.
   */
  lemma KeptUpToDelimiter(u: string, n: nat, bol: bool, s: Scan, dollar: bool)
    requires ValidLexer(s.lx) && n <= |u| && KeepsAll(u, n, bol, s.lx, dollar) && StartsWith(u[n..], s.lx.delim)
    requires DelimiterCommand(u[n..][..LineLen(u[n..])]).None?
    ensures ScanText(u, bol, s, dollar)
            == ScanText(u[n + |s.lx.delim|..], false,
                        Scan(Lexer(Normal, "", s.lx.delim), "", Push(s.queries, s.stmt + u[..n])), dollar)
  {
    hide ScanText, KeepsAll, DelimiterCommand, Push, NextToken;
    var bol' := ScanKeepsAll(u, n, bol, s, dollar);
    var kept := Scan(Lexer(Normal, "", s.lx.delim), s.stmt + u[..n], s.queries);
    DelimiterEndsStatement(u[n..], bol', kept, dollar);
    DropDrop(u, n, |s.lx.delim|);
  }

  /** A statement of the grammar is listed by the ";" behind it, together with what was pending. */
  lemma StatementListed(u: string, n: nat, bol: bool, s: Scan, dollar: bool)
    requires s.lx == START && n <= |u| && Statement(u, n, bol, dollar) && StartsWith(u[n..], ";")
    ensures ScanText(u, bol, s, dollar)
            == ScanText(u[n + 1..], false, Scan(START, "", Push(s.queries, s.stmt + u[..n])), dollar)
  {
    hide ScanText, KeepsAll, DelimiterCommand, Push, Statement;
    StatementIsKept(u, n, bol, dollar);
    SemicolonLineIsNoCommand(u[n..]);
    KeptUpToDelimiter(u, n, bol, s, dollar);
  }
}
