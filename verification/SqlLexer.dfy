/**
 The scanner of the SQL splitter, one token at a time and without its
 accumulators: what is recognised at the head of the remaining text `u`, how far
 the cursor moves, and in which mode the scanner goes on.
 */
module SqlLexer {
  import opened Strings

  datatype Mode =
    | Normal
    | SingleQuote
    | DoubleQuote
    | Backtick
    | LineComment
    | BlockComment
    | DollarQuote

  /** Everything that survives from one character to the next. */
  datatype Lexer = Lexer(mode: Mode, tag: string, delim: string)

  /** What becomes of the bytes of a token. */
  datatype Kind = Kept | Delimiter | Comment | Command

  datatype Token = Token(kind: Kind, len: nat, next: Lexer)

  const START := Lexer(Normal, "", ";")

  // ---- what a token may start with ------------------------------------------

  predicate StartsLineComment(u: string)
    requires u != ""
  {
    || u[0] == '#'
    || (u[0] == '/' && 1 < |u| && u[1] == '/')
    || (u[0] == '-' && 2 < |u| && u[1] == '-' && IsTrimChar(u[2]))
  }

  predicate StartsBlockComment(u: string)
    requires u != ""
  {
    u[0] == '/' && 1 < |u| && u[1] == '*'
  }

  /** The first letter of a tag; digits may only follow (C locale). */
  predicate IsTagStart(c: char) {
    'a' <= c <= 'z' || 'A' <= c <= 'Z' || c == '_'
  }

  predicate IsTagChar(c: char) {
    IsTagStart(c) || '0' <= c <= '9'
  }

  /** "$$" or "$name$". */
  predicate IsTag(t: string) {
    && |t| >= 2
    && t[0] == '$' == t[|t| - 1]
    && (|t| > 2 ==> IsTagStart(t[1]))
    && forall i | 1 <= i < |t| - 1 :: IsTagChar(t[i])
  }

  function TagRun(u: string, i: nat): (e: nat)
    requires i <= |u|
    ensures i <= e <= |u|
    ensures forall j | i <= j < e :: IsTagChar(u[j])
    ensures e < |u| ==> !IsTagChar(u[e])
    decreases |u| - i
  {
    if i < |u| && IsTagChar(u[i]) then TagRun(u, i + 1) else i
  }

  /** Length of the dollar-quote opener at the head of `u`, 0 if there is none. */
  function TagLen(u: string): (n: nat)
    ensures n > 0 ==> n <= |u| && IsTag(u[..n])
    ensures n == 0 ==> forall m | 0 <= m <= |u| :: !IsTag(u[..m])
  {
    if u == "" || u[0] != '$' then 0
    else
      var e := TagRun(u, 1);
      if e < |u| && u[e] == '$' && (e > 1 ==> IsTagStart(u[1])) then e + 1
      else
        assert forall m | 2 <= m <= |u| && IsTag(u[..m]) :: m - 1 == e by {
          forall m | 2 <= m <= |u| && IsTag(u[..m])
            ensures m - 1 == e
          {
            TagEnd(u, m);
          }
        }
        0
  }

  lemma TagEnd(u: string, m: nat)
    requires 2 <= m <= |u| && IsTag(u[..m])
    ensures TagRun(u, 1) == m - 1
  {
    var t, e := u[..m], TagRun(u, 1);
    assert t[m - 1] == '$';
    assert forall i | 1 <= i < m - 1 :: u[i] == t[i];
  }

  /** No text starts with two different openers. */
  lemma TagLenUnique(u: string, m: nat)
    requires m <= |u| && IsTag(u[..m])
    ensures TagLen(u) == m
  {
    TagEnd(u, m);
    TagEnd(u, TagLen(u));
  }

  /** The value of a "DELIMITER x" line, if `line` is one. */
  function DelimiterCommand(line: string): (d: Option<string>)
    ensures d.Some? ==> d.value != "" && Trimmed(d.value)
  {
    var t := Trim(line);
    if |t| <= |"DELIMITER "| then None
    else if !StartsWith(t, "DELIMITER ") && !StartsWith(t, "delimiter ") then None
    else
      var v := Trim(t[|"DELIMITER "|..]);
      if v == "" then None else Some(v)
  }

  /** A DELIMITER line, written as a grammar. */
  ghost predicate CommandForm(line: string, a: string, word: string, b: string, d: string, c: string) {
    && line == a + word + b + d + c
    && word in {"DELIMITER ", "delimiter "}
    && Blank(a) && Blank(b) && Blank(c)
    && d != "" && Trimmed(d)
  }

  /** The command is recognised exactly on the lines of that form, with that value. */
  lemma CommandGrammar(line: string, d: string)
    ensures DelimiterCommand(line) == Some(d) <==> exists a, word, b, c :: CommandForm(line, a, word, b, d, c)
  {
    if DelimiterCommand(line) == Some(d) {
      var word := Trim(line)[..|"DELIMITER "|];
      var a, c := TrimSplits(line);
      var b, e := TrimSplits(Trim(line)[|word|..]);
      CommandTail(Trim(line), word, b, d, e);
      assert CommandForm(line, a, word, b, d, c);
    }
    forall a, word, b, c | CommandForm(line, a, word, b, d, c)
      ensures DelimiterCommand(line) == Some(d)
    {
      CommandFormRead(line, a, word, b, d, c);
    }
  }

  lemma CommandTail(t: string, word: string, b: string, d: string, e: string)
    requires Trimmed(t) && |word| < |t| && t[..|word|] == word && t[|word|..] == b + d + e && Blank(e) && d != ""
    ensures e == "" && t == word + b + d
  {
    assert t == word + b + d + e;
    if e != "" {
      LastOf(t, word + b + d, e);
    }
  }

  lemma LastOf(t: string, u: string, e: string)
    requires t == u + e && e != ""
    ensures t[|t| - 1] == e[|e| - 1]
  {
  }

  lemma CommandFormRead(line: string, a: string, word: string, b: string, d: string, c: string)
    requires CommandForm(line, a, word, b, d, c)
    ensures DelimiterCommand(line) == Some(d)
  {
    var t := word + b + d;
    assert Trimmed(t) by {
      assert t[0] == word[0] && t[|t| - 1] == d[|d| - 1];
    }
    assert line == a + t + c;
    TrimUnique(a, t, c);
    assert t[..|word|] == word && t[|word|..] == b + d;
    TrimSkipsBlankPrefix(b, d);
    assert "" + d + "" == d;
    TrimUnique("", d, "");
  }

  lemma ShortIsNoCommand(line: string)
    ensures DelimiterCommand(line).Some? ==> |line| > |"DELIMITER "|
  {
    TrimShortens(line);
  }

  // ---- one token ------------------------------------------------------------

  /** Holds between any two tokens of any scan (see LexKeepsValid). */
  predicate ValidLexer(lx: Lexer) {
    && lx.delim != "" && Trimmed(lx.delim) && '\n' !in lx.delim
    && (lx.mode.DollarQuote? <==> lx.tag != "")
    && (lx.mode.DollarQuote? ==> IsTag(lx.tag))
  }

  function LexNormal(u: string, lx: Lexer, dollar: bool): Token
    requires u != ""
  {
    if lx.delim != "" && StartsWith(u, lx.delim) then
      Token(Delimiter, |lx.delim|, lx)
    else if StartsLineComment(u) then
      Token(Comment, if u[0] == '#' then 1 else 2, lx.(mode := LineComment))
    else if StartsBlockComment(u) then
      Token(Comment, 2, lx.(mode := BlockComment))
    else if dollar && TagLen(u) > 0 then
      Token(Kept, TagLen(u), lx.(mode := DollarQuote, tag := u[..TagLen(u)]))
    else
      Token(Kept, 1, lx.(mode := match u[0]
                                 case '\'' => SingleQuote
                                 case '"' => DoubleQuote
                                 case '`' => Backtick
                                 case _ => Normal))
  }

  function LexQuoted(u: string, lx: Lexer, quote: char): Token
    requires u != ""
  {
    if u[0] == '\\' && 1 < |u| then Token(Kept, 2, lx)
    else Token(Kept, 1, if u[0] == quote then lx.(mode := Normal) else lx)
  }

  function LexOne(u: string, lx: Lexer, dollar: bool): Token
    requires u != ""
  {
    match lx.mode
    case Normal => LexNormal(u, lx, dollar)
    case SingleQuote => LexQuoted(u, lx, '\'')
    case DoubleQuote => LexQuoted(u, lx, '"')
    case Backtick => Token(Kept, 1, if u[0] == '`' then lx.(mode := Normal) else lx)
    case LineComment => Token(Comment, 1, if u[0] == '\n' then lx.(mode := Normal) else lx)
    case BlockComment =>
      if u[0] == '*' && 1 < |u| && u[1] == '/' then Token(Comment, 2, lx.(mode := Normal))
      else Token(Comment, 1, lx)
    case DollarQuote =>
      if u[0] == '$' && StartsWith(u, lx.tag) then Token(Kept, |lx.tag|, lx.(mode := Normal, tag := ""))
      else Token(Kept, 1, lx)
  }

  // ---- what every token keeps -----------------------------------------------

  /**
   The cursor moves forward, never past the text, and never over a newline except
   as the last byte of a token; the lexer stays valid.
   */
  lemma LexKeepsValid(u: string, lx: Lexer, dollar: bool)
    requires u != "" && ValidLexer(lx)
    ensures var t := LexOne(u, lx, dollar);
            && 0 < t.len <= |u|
            && (forall i | 0 <= i < t.len - 1 :: u[i] != '\n')
            && ValidLexer(t.next) && t.next.delim == lx.delim && !t.kind.Command?
  {
    var t := LexOne(u, lx, dollar);
    if lx.mode.Normal? {
      if StartsWith(u, lx.delim) {
        assert forall i | 0 <= i < |lx.delim| :: u[i] == lx.delim[i];
      } else if dollar && TagLen(u) > 0 {
        assert forall i | 0 <= i < TagLen(u) :: u[i] == u[..TagLen(u)][i];
      }
    } else if lx.mode.DollarQuote? && StartsWith(u, lx.tag) {
      assert forall i | 0 <= i < |lx.tag| :: u[i] == lx.tag[i];
    }
  }

  /** Dollar-quote mode cannot be entered when dollar quoting is off. */
  lemma NoDollarModeWhenOff(u: string, lx: Lexer)
    requires u != "" && !lx.mode.DollarQuote?
    ensures !LexOne(u, lx, false).next.mode.DollarQuote?
  {
  }

  // ---- look-ahead stays on the line -----------------------------------------

  lemma StartsWithLocal(u: string, r: string, p: string)
    requires '\n' in u && '\n' !in p
    ensures StartsWith(u + r, p) == StartsWith(u, p)
  {
    if |p| <= |u| {
      assert (u + r)[..|p|] == u[..|p|];
    } else if StartsWith(u + r, p) {
      PrefixKeeps(u, r, p, '\n');
    }
  }

  lemma PrefixKeeps(u: string, r: string, p: string, c: char)
    requires c in u && |u| < |p| && StartsWith(u + r, p)
    ensures c in p
  {
    var i :| 0 <= i < |u| && u[i] == c;
    assert p[i] == (u + r)[i];
  }

  lemma TagOnOneLine(t: string)
    requires IsTag(t)
    ensures '\n' !in t
  {
  }

  lemma TagLenLocal(u: string, r: string)
    requires '\n' in u
    ensures TagLen(u + r) == TagLen(u)
  {
    var n, m := TagLen(u), TagLen(u + r);
    if n > 0 {
      assert (u + r)[..n] == u[..n];
      TagLenUnique(u + r, n);
    } else if m > 0 {
      TagOnOneLine((u + r)[..m]);
      StartsWithLocal(u, r, (u + r)[..m]);
    }
  }

  /** Text behind the next newline has no influence on the next token. */
  lemma LexLocal(u: string, r: string, lx: Lexer, dollar: bool)
    requires '\n' in u && ValidLexer(lx)
    ensures LexOne(u + r, lx, dollar) == LexOne(u, lx, dollar)
  {
    assert (u + r)[0] == u[0];
    if lx.mode.Normal? {
      StartsWithLocal(u, r, lx.delim);
      TagLenLocal(u, r);
      CommentLocal(u, r);
      assert TagLen(u) > 0 ==> (u + r)[..TagLen(u)] == u[..TagLen(u)];
    } else if lx.mode.DollarQuote? {
      StartsWithLocal(u, r, lx.tag);
    } else {
      SecondCharLocal(u, r);
    }
  }

  lemma SecondCharLocal(u: string, r: string)
    requires '\n' in u
    ensures u[0] != '\n' ==> 1 < |u| && (u + r)[1] == u[1]
  {
    if |u| == 1 {
      assert u == [u[0]];
    }
  }

  lemma CommentLocal(u: string, r: string)
    requires '\n' in u
    ensures StartsLineComment(u + r) == StartsLineComment(u)
    ensures StartsBlockComment(u + r) == StartsBlockComment(u)
  {
    SecondCharLocal(u, r);
    assert |u| == 2 ==> u == [u[0], u[1]];
  }
}
