/**
 The splitter in terms of characters. What is proved elsewhere about blanks, comments
 and tags is said here once more with the characters themselves.
 */
module SqlCharacters {
  import opened Strings
  import opened SqlLexer
  import opened SqlScan
  import opened SqlInvariants
  import opened SqlLiterals

  /** Trimming removes two ends made of space, tab, CR and LF, and as much of them as there is. */
  lemma TrimCharacters(s: string) returns (a: string, b: string)
    ensures s == a + Trim(s) + b
    ensures forall c | c in a || c in b :: c in {' ', '\t', '\r', '\n'}
    ensures Trim(s) != "" ==>
              var t := Trim(s);
              t[0] !in {' ', '\t', '\r', '\n'} && t[|t| - 1] !in {' ', '\t', '\r', '\n'}
  {
    hide Trim;
    a, b := TrimSplits(s);
  }

  /** Whatever the file holds, no query listed is empty or begins or ends with one of the four. */
  lemma QueryCharacters(f: string, dollar: bool, q: string)
    ensures q in SplitFile(f, dollar) ==>
              && q != ""
              && q[0] !in {' ', '\t', '\r', '\n'} && q[|q| - 1] !in {' ', '\t', '\r', '\n'}
  {
    hide SplitFile, ScanText;
    ReachableStates(f, dollar);
  }

  /** A CR LF pair on its own is no query, and around a statement it is trimmed. */
  lemma CarriageReturns(dollar: bool)
    ensures Push([], "\r\n") == [] && Push([], "\r\nx") == ["x"] && Push([], "x\r\n") == ["x"]
  {
    hide Trim;
    TrimUnique("\r\n", "", "");
    TrimUnique("\r\n", "x", "");
    TrimUnique("", "x", "\r\n");
    assert "\r\n" + "" + "" == "\r\n" && "\r\n" + "x" + "" == "\r\nx" && "" + "x" + "\r\n" == "x\r\n";
  }

  /** Two dashes open a comment exactly if one of the four follows; otherwise the dash is collected. */
  lemma DashCharacters(c: char, rest: string, bol: bool, lx: Lexer, dollar: bool)
    requires lx.mode.Normal? && !StartsWith(['-', '-', c] + rest, lx.delim)
    ensures NextToken(['-', '-', c] + rest, bol, lx, dollar)
            == if c in {' ', '\t', '\r', '\n'} then Token(Comment, 2, lx.(mode := LineComment))
               else Token(Kept, 1, lx)
  {
    var u := ['-', '-', c] + rest;
    assert u[0] == '-' && u[1] == '-' && u[2] == c;
    var line := u[..LineLen(u)];
    assert DelimiterCommand(line).None? by {
      hide Trim;
      assert line[0] == '-';
      TrimKeepsHead(line);
      if DelimiterCommand(line).Some? {
        CommandHead(line);
      }
    }
    hide Trim, DelimiterCommand, IsTag;
  }

  predicate NameCharacters(name: string) {
    && (name != "" ==> !('0' <= name[0] <= '9'))
    && forall c | c in name :: 'a' <= c <= 'z' || 'A' <= c <= 'Z' || '0' <= c <= '9' || c == '_'
  }

  /** "$name$" opens a dollar quote exactly for names of letters, digits and "_" that do not begin with a digit. */
  lemma TagCharacters(name: string, rest: string)
    ensures '$' !in name ==>
              TagLen("$" + name + "$" + rest) == if NameCharacters(name) then |name| + 2 else 0
  {
    if '$' !in name {
      var u := "$" + name + "$" + rest;
      var n := |name| + 2;
      var t := u[..n];
      assert t[0] == '$' && t[n - 1] == '$' && forall i | 1 <= i < n - 1 :: t[i] == name[i - 1];
      TagIsName(t, name);
      if NameCharacters(name) {
        TagLenUnique(u, n);
      } else if TagLen(u) > 0 {
        NoOtherTag(u, name, TagLen(u));
      }
    }
  }

  lemma TagIsName(t: string, name: string)
    requires |t| == |name| + 2 && t[0] == '$' && t[|t| - 1] == '$' && forall i | 1 <= i < |t| - 1 :: t[i] == name[i - 1]
    ensures IsTag(t) <==> NameCharacters(name)
  {
    if IsTag(t) {
      forall c | c in name
        ensures 'a' <= c <= 'z' || 'A' <= c <= 'Z' || '0' <= c <= '9' || c == '_'
      {
        var i :| 0 <= i < |name| && name[i] == c;
        assert t[i + 1] == c;
      }
    }
    if NameCharacters(name) {
      forall i | 1 <= i < |t| - 1
        ensures IsTagChar(t[i])
      {
        assert name[i - 1] in name;
      }
      assert name != "" ==> name[0] in name;
    }
  }

  lemma NoOtherTag(u: string, name: string, m: nat)
    requires '$' !in name && |u| >= |name| + 2 && u[..|name| + 1] == "$" + name && u[|name| + 1] == '$'
    requires m <= |u| && IsTag(u[..m])
    ensures m == |name| + 2
  {
    var t, k := u[..m], |name| + 1;
    assert t[m - 1] == u[m - 1] == '$' && u[k] == '$';
    assert forall i | 1 <= i < k :: u[i] == (("$" + name)[i]) == name[i - 1];
    assert forall i | 1 <= i < k :: u[i] in name;
    assert forall i | 1 <= i < m - 1 :: t[i] == u[i] && IsTagChar(u[i]);
  }
}
