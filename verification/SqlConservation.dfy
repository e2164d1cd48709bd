/** Where every byte of a file goes. */
module SqlConservation {
  import opened Strings
  import opened SqlLexer
  import opened SqlScan

  datatype Piece = Piece(kind: Kind, text: string)

  /** The text cut into tokens. */
  function Pieces(u: string, bol: bool, lx: Lexer, dollar: bool): seq<Piece>
    requires ValidLexer(lx)
    decreases |u|
  {
    if u == "" then []
    else
      var t := NextToken(u, bol, lx, dollar);
      NextKeepsValid(u, bol, lx, dollar);
      [Piece(t.kind, u[..t.len])] + Pieces(u[t.len..], u[t.len - 1] == '\n', t.next, dollar)
  }

  function Flat(ps: seq<Piece>): string {
    if ps == [] then "" else ps[0].text + Flat(ps[1..])
  }

  function KeptText(ps: seq<Piece>): string {
    if ps == [] then "" else (if ps[0].kind.Kept? then ps[0].text else "") + KeptText(ps[1..])
  }

  /** The kept bytes, cut at the delimiters and nowhere else. */
  function Statements(ps: seq<Piece>): (r: seq<string>)
    ensures r != []
  {
    if ps == [] then [""]
    else
      var r := Statements(ps[1..]);
      match ps[0].kind
      case Kept => [ps[0].text + r[0]] + r[1..]
      case Delimiter => [""] + r
      case Comment => r
      case Command => r
  }

  /** Trimmed, without those that trim to nothing. */
  function Listed(stmts: seq<string>): seq<string> {
    if stmts == [] then []
    else (if Trim(stmts[0]) == "" then [] else [Trim(stmts[0])]) + Listed(stmts[1..])
  }

  function Join(stmts: seq<string>): string {
    if stmts == [] then "" else stmts[0] + Join(stmts[1..])
  }

  predicate Subsequence(a: string, b: string) {
    || a == ""
    || (b != "" && if a[0] == b[0] then Subsequence(a[1..], b[1..]) else Subsequence(a, b[1..]))
  }

  // ---- no byte is lost or made up ------------------------------------------------------

  lemma FlatStep(u: string, bol: bool, lx: Lexer, dollar: bool)
    requires ValidLexer(lx) && u != ""
    ensures var t := NextToken(u, bol, lx, dollar);
            && 0 < t.len <= |u| && ValidLexer(t.next)
            && Flat(Pieces(u, bol, lx, dollar))
               == u[..t.len] + Flat(Pieces(u[t.len..], u[t.len - 1] == '\n', t.next, dollar))
  {
    hide NextToken;
    NextKeepsValid(u, bol, lx, dollar);
  }

  lemma Rejoin(u: string, n: nat)
    requires n <= |u|
    ensures u[..n] + u[n..] == u
  {
  }

  lemma {:induction false} PiecesAreTheText(u: string, bol: bool, lx: Lexer, dollar: bool)
    requires ValidLexer(lx)
    ensures Flat(Pieces(u, bol, lx, dollar)) == u
    decreases |u|
  {
    if u != "" {
      hide NextToken, Pieces, Flat, ValidLexer;
      var t := NextToken(u, bol, lx, dollar);
      FlatStep(u, bol, lx, dollar);
      PiecesAreTheText(u[t.len..], u[t.len - 1] == '\n', t.next, dollar);
      Rejoin(u, t.len);
    }
  }

  /** With a first statement already begun. */
  function Begun(stmt: string, stmts: seq<string>): seq<string>
    requires stmts != []
  {
    [stmt + stmts[0]] + stmts[1..]
  }

  lemma ListedBegun(stmt: string, piece: string, stmts: seq<string>)
    requires stmts != []
    ensures Begun(stmt, Begun(piece, stmts)) == Begun(stmt + piece, stmts)
    ensures Listed(Begun(stmt, [""] + stmts)) == Push([], stmt) + Listed(stmts)
    ensures Begun("", stmts) == stmts
  {
    Assoc(stmt, piece, stmts[0]);
    assert Begun(stmt, [""] + stmts)[0] == stmt;
    assert Begun(stmt, [""] + stmts)[1..] == stmts;
    assert "" + stmts[0] == stmts[0];
  }

  lemma AbsorbLists(s: Scan, piece: string, t: Token, ps: seq<Piece>)
    ensures var s' := Absorb(s, piece, t);
            s'.queries + Listed(Begun(s'.stmt, Statements(ps)))
            == s.queries + Listed(Begun(s.stmt, Statements([Piece(t.kind, piece)] + ps)))
  {
    hide Trim, Listed;
    var all := [Piece(t.kind, piece)] + ps;
    assert all[1..] == ps;
    ListedBegun(s.stmt, piece, Statements(ps));
    if t.kind.Delimiter? {
      ListedBegun("", piece, Statements(ps));
      PushApart(s.queries, s.stmt);
      Assoc(s.queries, Push([], s.stmt), Listed(Statements(ps)));
    } else if t.kind.Kept? {
      assert Statements(all) == Begun(piece, Statements(ps));
    }
  }

  lemma PushApart(queries: seq<string>, stmt: string)
    ensures Push(queries, stmt) == queries + Push([], stmt)
  {
  }

  lemma {:induction false} ScanLists(u: string, bol: bool, s: Scan, dollar: bool)
    requires ValidLexer(s.lx)
    ensures var r := ScanText(u, bol, s, dollar);
            Push(r.queries, r.stmt) == s.queries + Listed(Begun(s.stmt, Statements(Pieces(u, bol, s.lx, dollar))))
    decreases |u|
  {
    hide NextToken, Trim;
    if u == "" {
      assert Begun(s.stmt, [""]) == [s.stmt] by { assert s.stmt + "" == s.stmt; }
      assert Listed([s.stmt]) == Push([], s.stmt);
      PushApart(s.queries, s.stmt);
    } else {
      hide Listed, Begun, Statements, Push;
      var t := NextToken(u, bol, s.lx, dollar);
      NextKeepsValid(u, bol, s.lx, dollar);
      var piece, rest, nl := u[..t.len], u[t.len..], u[t.len - 1] == '\n';
      ScanLists(rest, nl, Absorb(s, piece, t), dollar);
      AbsorbLists(s, piece, t, Pieces(rest, nl, t.next, dollar));
    }
  }

  lemma {:induction false} StatementsAreKept(ps: seq<Piece>)
    ensures Join(Statements(ps)) == KeptText(ps)
  {
    if ps != [] {
      var r := Statements(ps[1..]);
      StatementsAreKept(ps[1..]);
      if ps[0].kind.Kept? {
        assert Begun(ps[0].text, r)[1..] == r[1..];
        Assoc(ps[0].text, r[0], Join(r[1..]));
      } else if ps[0].kind.Delimiter? {
        assert ([""] + r)[1..] == r;
      }
    }
  }

  lemma {:induction false} SubsequenceTail(a: string, b: string)
    requires a != "" && Subsequence(a, b)
    ensures Subsequence(a[1..], b)
    decreases |b|
  {
    if a[0] != b[0] {
      SubsequenceTail(a, b[1..]);
    }
    if |a| > 1 && a[1] == b[0] {
      SubsequenceTail(a[1..], b[1..]);
    }
  }

  lemma {:induction false} SubsequenceSkip(a: string, x: string, b: string)
    requires Subsequence(a, b)
    ensures Subsequence(a, x + b)
  {
    if x == "" {
      assert x + b == b;
    } else {
      SubsequenceSkip(a, x[1..], b);
      assert (x + b)[1..] == x[1..] + b;
      if a != "" && a[0] == x[0] {
        SubsequenceTail(a, x[1..] + b);
      }
    }
  }

  lemma {:induction false} SubsequenceMatch(a: string, x: string, b: string)
    requires Subsequence(a, b)
    ensures Subsequence(x + a, x + b)
  {
    if x == "" {
      assert x + a == a && x + b == b;
    } else {
      SubsequenceMatch(a, x[1..], b);
      assert (x + a)[1..] == x[1..] + a && (x + b)[1..] == x[1..] + b;
    }
  }

  lemma {:induction false} KeptIsSubsequence(ps: seq<Piece>)
    ensures Subsequence(KeptText(ps), Flat(ps))
  {
    if ps != [] {
      KeptIsSubsequence(ps[1..]);
      if ps[0].kind.Kept? {
        SubsequenceMatch(KeptText(ps[1..]), ps[0].text, Flat(ps[1..]));
      } else {
        SubsequenceSkip(KeptText(ps[1..]), ps[0].text, Flat(ps[1..]));
        assert "" + KeptText(ps[1..]) == KeptText(ps[1..]);
      }
    }
  }

  /**
   Take a file with its last newline supplied if it is missing, as the scanner does.
   Every byte is in exactly one piece, which is kept, a delimiter, a comment or a
   DELIMITER line. The queries are the kept bytes, in order, cut at the delimiters and
   trimmed; the untrimmed statements joined together are a subsequence of those bytes.
   */
  lemma Conservation(f: string, dollar: bool)
    ensures var u := Terminated(f);
            var ps := Pieces(u, true, START, dollar);
            && Flat(ps) == u
            && SplitFile(f, dollar) == Listed(Statements(ps))
            && Join(Statements(ps)) == KeptText(ps)
            && Subsequence(Join(Statements(ps)), u)
  {
    hide NextToken, Trim, SplitFile, Terminated;
    var u := Terminated(f);
    var ps := Pieces(u, true, START, dollar);
    PiecesAreTheText(u, true, START, dollar);
    FileRefinesText(f, dollar);
    ScanLists(u, true, INIT, dollar);
    ListedBegun("", "", Statements(ps));
    assert INIT.queries + Listed(Statements(ps)) == Listed(Statements(ps));
    StatementsAreKept(ps);
    KeptIsSubsequence(ps);
  }
}
