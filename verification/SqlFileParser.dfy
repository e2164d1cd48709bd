/** The parser as it runs: cursor, state and accumulators updated in place. */
module SqlFileParser {
  import opened Strings
  import opened SqlLexer
  import opened SqlScan
  import opened SqlConcat

  /** The vector of statements shared with the worker. */
  class QueryList {
    var items: seq<string>

    constructor ()
      ensures items == []
    {
      items := [];
    }
  }

  method IsDelimiterCommand(rawLine: string) returns (found: bool, newDelimiter: string)
    ensures found == DelimiterCommand(rawLine).Some?
    ensures newDelimiter == if found then DelimiterCommand(rawLine).value else ""
  {
    newDelimiter := "";
    var line := Trim(rawLine);
    if |line| <= |"DELIMITER "| {
      return false, newDelimiter;
    }
    var hasPrefix := StartsWith(line, "DELIMITER ") || StartsWith(line, "delimiter ");
    if !hasPrefix {
      return false, newDelimiter;
    }
    var value := Trim(line[|"DELIMITER "|..]);
    if value == "" {
      return false, newDelimiter;
    }
    return true, value;
  }

  lemma TagRunIs(u: string, e: nat)
    requires 1 <= e <= |u| && (forall i | 1 <= i < e :: IsTagChar(u[i])) && (e < |u| ==> !IsTagChar(u[e]))
    ensures TagRun(u, 1) == e
  {
  }

  method DollarQuoteOpenLength(text: string, pos: nat) returns (len: nat)
    requires pos < |text|
    ensures len == TagLen(text[pos..])
  {
    ghost var u := text[pos..];
    if text[pos] != '$' {
      return 0;
    }
    var i := pos + 1;
    if i < |text| && text[i] == '$' {
      TagRunIs(u, 1);
      return 2;
    }
    if i >= |text| || !IsTagStart(text[i]) {
      return 0;
    }
    i := i + 1;
    while i < |text| && IsTagChar(text[i])
      invariant pos + 2 <= i <= |text|
      invariant forall j | 1 <= j < i - pos :: IsTagChar(u[j])
    {
      i := i + 1;
    }
    TagRunIs(u, i - pos);
    if i < |text| && text[i] == '$' {
      return i - pos + 1;
    }
    return 0;
  }

  lemma LineScanStep(line: string, pos: nat, s: Scan, dollar: bool)
    requires pos < |line| && ValidLexer(s.lx)
    ensures var t := LexOne(line[pos..], s.lx, dollar);
            && 0 < t.len <= |line| - pos && ValidLexer(t.next)
            && ScanLine(line[pos..], s, dollar)
               == ScanLine(line[pos + t.len..], Absorb(s, line[pos..][..t.len], t), dollar)
  {
    hide LexOne;
    LexKeepsValid(line[pos..], s.lx, dollar);
    var t := LexOne(line[pos..], s.lx, dollar);
    assert line[pos..][t.len..] == line[pos + t.len..];
  }

  lemma ScanLineEnd(u: string, s: Scan, dollar: bool)
    requires u == "" && ValidLexer(s.lx)
    ensures ScanLine(u, s, dollar) == s
  {
  }

  /** The locals of the splitting loop that the consume methods update. */
  class Scanner {
    const dollarQuoting: bool
    const queryList: QueryList
    var state: Mode
    var statement: string
    var delimiter: string
    var dollarTag: string

    ghost function Snapshot(): Scan
      reads this, queryList
    {
      Scan(Lexer(state, dollarTag, delimiter), statement, queryList.items)
    }

    ghost predicate Valid()
      reads this
    {
      ValidLexer(Lexer(state, dollarTag, delimiter))
    }

    /** Cursor and scanner after the token at `pos`, as the whole-text scan defines it. */
    ghost function Consumed(text: string, pos: nat, s: Scan): (int, Scan)
      requires pos < |text|
    {
      var t := LexOne(text[pos..], s.lx, dollarQuoting);
      (pos + t.len, if t.len <= |text| - pos then Absorb(s, text[pos..][..t.len], t) else s)
    }

    constructor (queryList: QueryList, dollarQuoting: bool)
      ensures Valid() && Snapshot() == Scan(START, "", queryList.items)
      ensures this.queryList == queryList && this.dollarQuoting == dollarQuoting
    {
      this.queryList := queryList;
      this.dollarQuoting := dollarQuoting;
      state, statement, delimiter, dollarTag := Normal, "", ";", "";
    }

    method PushStatement()
      modifies this`statement, queryList
      ensures Snapshot() == old(Snapshot()).(stmt := "", queries := Push(old(queryList.items), old(statement)))
    {
      var trimmed := Trim(statement);
      if trimmed != "" {
        queryList.items := queryList.items + [trimmed];
      }
      statement := "";
    }

    // Each of the following leaves the cursor on the last byte it used; the loop
    // over the line adds one.

    method ConsumeNormalChar(text: string, pos: nat) returns (last: int)
      requires pos < |text| && Valid() && state.Normal?
      modifies this, queryList
      ensures (last + 1, Snapshot()) == Consumed(text, pos, old(Snapshot()))
    {
      ghost var u := text[pos..];
      last := pos;
      var c := text[pos];
      if StartsWith(text[pos..], delimiter) {
        PushStatement();
        last := last + |delimiter| - 1;
        return;
      }
      if StartsLineComment(text[pos..]) {
        state := LineComment;
        if c == '/' || c == '-' {
          last := last + 1;
        }
        return;
      }
      if StartsBlockComment(text[pos..]) {
        state := BlockComment;
        last := last + 1;
        return;
      }
      if dollarQuoting && c == '$' {
        var len := DollarQuoteOpenLength(text, pos);
        if len > 0 {
          dollarTag := text[pos..pos + len];
          assert dollarTag == u[..len];
          statement := statement + dollarTag;
          last := last + len - 1;
          state := DollarQuote;
          return;
        }
      }
      assert u[..1] == [c];
      if c == '\'' {
        state := SingleQuote;
        statement := statement + [c];
        return;
      }
      if c == '"' {
        state := DoubleQuote;
        statement := statement + [c];
        return;
      }
      if c == '`' {
        state := Backtick;
        statement := statement + [c];
        return;
      }
      statement := statement + [c];
    }

    method ConsumeQuotedChar(text: string, pos: nat, quote: char) returns (last: int)
      requires pos < |text| && Valid()
      requires (state.SingleQuote? && quote == '\'') || (state.DoubleQuote? && quote == '"')
      modifies this
      ensures (last + 1, Snapshot()) == Consumed(text, pos, old(Snapshot()))
    {
      last := pos;
      var c := text[pos];
      statement := statement + [c];
      assert text[pos..][..1] == [c];
      if c == '\\' && pos + 1 < |text| {
        last := last + 1;
        statement := statement + [text[last]];
        assert text[pos..][..2] == [c] + [text[last]];
        assert old(statement) + [c] + [text[last]] == old(statement) + ([c] + [text[last]]);
        return;
      }
      if c == quote {
        state := Normal;
      }
    }

    method ConsumeBacktickChar(text: string, pos: nat) returns (last: int)
      requires pos < |text| && Valid() && state.Backtick?
      modifies this
      ensures (last + 1, Snapshot()) == Consumed(text, pos, old(Snapshot()))
    {
      last := pos;
      var c := text[pos];
      statement := statement + [c];
      assert text[pos..][..1] == [c];
      if c == '`' {
        state := Normal;
      }
    }

    method ConsumeLineCommentChar(text: string, pos: nat)
      requires pos < |text| && Valid() && state.LineComment?
      modifies this
      ensures (pos + 1, Snapshot()) == Consumed(text, pos, old(Snapshot()))
    {
      if text[pos] == '\n' {
        state := Normal;
      }
    }

    method ConsumeBlockCommentChar(text: string, pos: nat) returns (last: int)
      requires pos < |text| && Valid() && state.BlockComment?
      modifies this
      ensures (last + 1, Snapshot()) == Consumed(text, pos, old(Snapshot()))
    {
      last := pos;
      if text[pos] == '*' && pos + 1 < |text| && text[pos + 1] == '/' {
        state := Normal;
        last := last + 1;
      }
    }

    method ConsumeDollarQuoteChar(text: string, pos: nat) returns (last: int)
      requires pos < |text| && Valid() && state.DollarQuote?
      modifies this
      ensures (last + 1, Snapshot()) == Consumed(text, pos, old(Snapshot()))
    {
      last := pos;
      if text[pos] == '$' && StartsWith(text[pos..], dollarTag) {
        statement := statement + dollarTag;
        last := last + |dollarTag| - 1;
        dollarTag := "";
        state := Normal;
        return;
      }
      statement := statement + [text[pos]];
      assert text[pos..][..1] == [text[pos]];
    }

    /** One character of the line, whatever the state. */
    method ConsumeChar(text: string, pos: nat) returns (last: int)
      requires pos < |text| && Valid()
      modifies this, queryList
      ensures Valid() && pos <= last < |text|
      ensures (last + 1, Snapshot()) == Consumed(text, pos, old(Snapshot()))
    {
      LexKeepsValid(text[pos..], Snapshot().lx, dollarQuoting);
      last := pos;
      match state {
        case Normal => last := ConsumeNormalChar(text, pos);
        case SingleQuote => last := ConsumeQuotedChar(text, pos, '\'');
        case DoubleQuote => last := ConsumeQuotedChar(text, pos, '"');
        case Backtick => last := ConsumeBacktickChar(text, pos);
        case LineComment => ConsumeLineCommentChar(text, pos);
        case BlockComment => last := ConsumeBlockCommentChar(text, pos);
        case DollarQuote => last := ConsumeDollarQuoteChar(text, pos);
      }
    }

    /** The loop over the characters of a line, its newline included. */
    method ConsumeText(line: string)
      requires Valid()
      modifies this, queryList
      ensures Valid() && Snapshot() == ScanLine(line, old(Snapshot()), dollarQuoting)
    {
      hide LexOne, Absorb, ScanLine;
      var pos := 0;
      assert line[0..] == line;
      while pos < |line|
        invariant pos <= |line| && Valid()
        invariant ScanLine(line[pos..], Snapshot(), dollarQuoting) == ScanLine(line, old(Snapshot()), dollarQuoting)
      {
        LineScanStep(line, pos, Snapshot(), dollarQuoting);
        var last := ConsumeChar(line, pos);
        pos := last + 1;
      }
      ScanLineEnd(line[pos..], Snapshot(), dollarQuoting);
    }

    /** One line: a DELIMITER command, or a scan to its end. */
    method ConsumeLine(rawLine: string)
      requires Valid() && '\n' !in rawLine
      modifies this, queryList
      ensures Valid() && Snapshot() == LineStep(rawLine, old(Snapshot()), dollarQuoting)
    {
      var found, newDelimiter := IsDelimiterCommand(rawLine);
      if state == Normal && found {
        delimiter := newDelimiter;
        CommandOnOneLine(rawLine);
        return;
      }
      ConsumeText(rawLine + "\n");
    }
  }

  /** The statements already listed do not influence those that follow. */
  lemma ListGrows(lines: seq<string>, q: seq<string>, dollar: bool)
    requires NoNewline(lines)
    ensures var r := ScanLines(lines, Scan(START, "", q), dollar);
            Push(r.queries, r.stmt) == q + SplitLines(lines, dollar)
  {
    hide ScanText;
    var u := Unlines(lines);
    LinesRefineText(lines, Scan(START, "", q), dollar);
    LinesRefineText(lines, INIT, dollar);
    assert After(q, "", INIT) == Scan(START, "", q) by {
      assert q + [] == q;
    }
    var w := ScanAfter(u, true, q, "", INIT, dollar);
    PushAfter(q, w, ScanText(u, true, INIT, dollar));
  }

  /** The loop over the lines of the file. */
  method SplitStatements(lines: seq<string>, queryList: QueryList, dollarQuoting: bool) returns (ok: bool)
    requires NoNewline(lines)
    modifies queryList
    ensures ok && queryList.items == old(queryList.items) + SplitLines(lines, dollarQuoting)
  {
    var scanner := new Scanner(queryList, dollarQuoting);
    ghost var start := scanner.Snapshot();
    for i := 0 to |lines|
      invariant scanner.Valid() && scanner.queryList == queryList && scanner.dollarQuoting == dollarQuoting
      invariant ScanLines(lines[i..], scanner.Snapshot(), dollarQuoting) == ScanLines(lines, start, dollarQuoting)
    {
      assert lines[i..][1..] == lines[i + 1..];
      scanner.ConsumeLine(lines[i]);
    }
    scanner.PushStatement();
    ListGrows(lines, old(queryList.items), dollarQuoting);
    return true;
  }

  class SqlFileParser {
    const mDollarQuoting: bool

    constructor (dollarQuoting: bool)
      ensures mDollarQuoting == dollarQuoting
    {
      mDollarQuoting := dollarQuoting;
    }

    /** `file` is what the named file holds, or None if it cannot be opened. */
    method LoadQueriesFromFile(queryList: QueryList?, file: Option<string>) returns (ok: bool)
      modifies queryList
      ensures ok <==> queryList != null && file.Some?
      ensures ok ==> queryList.items == old(queryList.items) + SplitFile(file.value, mDollarQuoting)
      ensures !ok && queryList != null ==> queryList.items == old(queryList.items)
    {
      if queryList == null {
        return false;
      }
      if file.None? {
        return false;
      }
      GetLinesHaveNoNewline(file.value);
      ok := SplitStatements(GetLines(file.value), queryList, mDollarQuoting);
    }
  }
}
