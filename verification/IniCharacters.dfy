/** The lines of a configuration file in terms of characters. */
module IniCharacters {
  import opened Strings
  import opened IniGrammar

  /** What the C library calls space: HT, LF, VT, FF, CR and the space itself. */
  predicate SpaceCode(c: char) {
    c as int in {9, 10, 11, 12, 13, 32}
  }

  /** A blank line has nothing but space. */
  lemma BlankExact(line: string)
    ensures IsBlankLine(line) <==> forall c | c in line :: SpaceCode(c)
  {
    hide SkipWs;
    var i := SkipWs(line, 0);
    assert i < |line| ==> line[i] in line;
  }

  lemma CommentSplits(line: string) returns (a: string, m: string, rest: string)
    requires IsComment(line)
    ensures line == a + m + rest && m in {";", "#", "--"} && forall c | c in a :: SpaceCode(c)
  {
    hide SkipWs;
    var i := SkipWs(line, 0);
    a := line[..i];
    if line[i] == ';' || line[i] == '#' {
      m, rest := [line[i]], line[i + 1..];
    } else {
      m, rest := "--", line[i + 2..];
      assert line[i..i + 2] == m;
    }
    assert line == a + line[i..];
  }

  /** A comment is space, then ";", "#" or "--", then anything. */
  lemma CommentExact(line: string)
    ensures IsComment(line)
            <==> exists a, m, rest ::
                   line == a + m + rest && m in {";", "#", "--"} && forall c | c in a :: SpaceCode(c)
  {
    hide IsComment, SpaceCode;
    if IsComment(line) {
      var a, m, rest := CommentSplits(line);
    }
    forall a: string, m, rest | line == a + m + rest && m in {";", "#", "--"} && forall c | c in a :: SpaceCode(c)
      ensures IsComment(line)
    {
      CommentFound(line, a, m, rest);
    }
  }

  lemma CommentFound(line: string, a: string, m: string, rest: string)
    requires line == a + m + rest && m in {";", "#", "--"} && forall c | c in a :: SpaceCode(c)
    ensures IsComment(line)
  {
    hide SkipWs;
    var i := |a|;
    assert forall j | 0 <= j < i :: line[j] == a[j];
    assert forall j | 0 <= j < i :: a[j] in a;
    assert line[i] == m[0] && (|m| > 1 ==> line[i + 1] == m[1]);
    assert SkipWs(line, 0) == i;
  }

  /**
   The grammar of a setting, character by character: a key begins with anything but
   space and goes on with anything but a space, a tab and "="; a value begins and ends
   with anything but space and has no two space characters in a row.
   */
  lemma FormCharacters(line: string, f: Form)
    ensures Reads(line, f)
            <==>
            && line == f.a + f.key + f.b + "=" + f.c + f.value + f.d
            && (forall c | c in f.a + f.b + f.c + f.d :: SpaceCode(c))
            && f.key != "" && !SpaceCode(f.key[0])
            && (forall i | 1 <= i < |f.key| :: f.key[i] !in {' ', '\t', '='})
            && f.value != "" && !SpaceCode(f.value[0]) && !SpaceCode(f.value[|f.value| - 1])
            && (forall i | 1 <= i < |f.value| :: !SpaceCode(f.value[i - 1]) || !SpaceCode(f.value[i]))
  {
    assert forall s: string :: AllSpace(s) <==> forall c | c in s :: SpaceCode(c) by {
      forall s: string
        ensures AllSpace(s) <==> forall c | c in s :: SpaceCode(c)
      {
        assert forall i | 0 <= i < |s| :: s[i] in s;
      }
    }
    hide AllSpace;
    assert IsValue(f.value) <==>
           && f.value != "" && !SpaceCode(f.value[0]) && !SpaceCode(f.value[|f.value| - 1])
           && (forall i | 1 <= i < |f.value| :: !SpaceCode(f.value[i - 1]) || !SpaceCode(f.value[i])) by {
      ValueCharacters(f.value);
    }
    hide IsValue, SpaceCode, IsSpace;
    assert forall c: char :: c in f.a + f.b + f.c + f.d <==> c in f.a || c in f.b || c in f.c || c in f.d;
    assert IsKey(f.key) <==>
           f.key != "" && !SpaceCode(f.key[0]) && (forall i | 1 <= i < |f.key| :: f.key[i] !in {' ', '\t', '='}) by {
      KeyCharacters(f.key);
    }
  }

  lemma KeyCharacters(k: string)
    ensures IsKey(k)
            <==> k != "" && !SpaceCode(k[0]) && forall i | 1 <= i < |k| :: k[i] !in {' ', '\t', '='}
  {
  }

  lemma ValueCharacters(v: string)
    ensures IsValue(v)
            <==>
            && v != "" && !SpaceCode(v[0]) && !SpaceCode(v[|v| - 1])
            && forall i | 1 <= i < |v| :: !SpaceCode(v[i - 1]) || !SpaceCode(v[i])
  {
    assert forall c :: IsSpace(c) <==> SpaceCode(c);
    hide IsSpace, SpaceCode;
    if IsValue(v) {
      forall i | 1 <= i < |v|
        ensures !SpaceCode(v[i - 1]) || !SpaceCode(v[i])
      {
        assert !(IsSpace(v[i - 1]) && IsSpace(v[i - 1 + 1]));
      }
    }
    if v != "" && forall i | 1 <= i < |v| :: !SpaceCode(v[i - 1]) || !SpaceCode(v[i]) {
      forall i | 0 <= i < |v| - 1
        ensures !(IsSpace(v[i]) && IsSpace(v[i + 1]))
      {
        assert !SpaceCode(v[i + 1 - 1]) || !SpaceCode(v[i + 1]);
      }
    }
  }
}
