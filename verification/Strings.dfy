/** Byte strings as the C++ program sees them: trimming, lines, prefixes. */
module Strings {

  datatype Option<+T> = None | Some(value: T)

  // ---- trimming -------------------------------------------------------------

  predicate IsTrimChar(c: char) {
    c == ' ' || c == '\t' || c == '\r' || c == '\n'
  }

  predicate Blank(s: string) {
    forall i | 0 <= i < |s| :: IsTrimChar(s[i])
  }

  predicate Trimmed(s: string) {
    s != "" ==> !IsTrimChar(s[0]) && !IsTrimChar(s[|s| - 1])
  }

  function Trim(s: string): (r: string)
    ensures Trimmed(r)
    ensures r == "" <==> Blank(s)
  {
    if s == "" then ""
    else if IsTrimChar(s[0]) then Trim(s[1..])
    else if IsTrimChar(s[|s| - 1]) then Trim(s[..|s| - 1])
    else s
  }

  lemma {:induction false} TrimSkipsBlankPrefix(w: string, s: string)
    requires Blank(w)
    ensures Trim(w + s) == Trim(s)
  {
    if w == "" {
      assert w + s == s;
    } else {
      assert (w + s)[1..] == w[1..] + s;
      TrimSkipsBlankPrefix(w[1..], s);
    }
  }

  lemma {:induction false} TrimSkipsBlankSuffix(s: string, w: string)
    requires Blank(w)
    ensures Trim(s + w) == Trim(s)
    decreases |s| + |w|
  {
    if w == "" {
      assert s + w == s;
    } else if s == "" {
      assert s + w == w;
    } else if IsTrimChar(s[0]) {
      assert (s + w)[1..] == s[1..] + w;
      TrimSkipsBlankSuffix(s[1..], w);
    } else {
      assert (s + w)[..|s + w| - 1] == s + w[..|w| - 1];
      TrimSkipsBlankSuffix(s, w[..|w| - 1]);
    }
  }

  /** Trim is the only trimmed middle part between two blank ends ... */
  lemma TrimUnique(a: string, t: string, b: string)
    requires Blank(a) && Blank(b) && Trimmed(t)
    ensures Trim(a + t + b) == t
  {
    TrimSkipsBlankSuffix(a + t, b);
    TrimSkipsBlankPrefix(a, t);
  }

  /** ... and such a decomposition always exists. */
  lemma {:induction false} TrimSplits(s: string) returns (a: string, b: string)
    ensures Blank(a) && Blank(b) && s == a + Trim(s) + b
  {
    if s == "" {
      a, b := "", "";
    } else if IsTrimChar(s[0]) {
      a, b := TrimSplits(s[1..]);
      a := [s[0]] + a;
    } else if IsTrimChar(s[|s| - 1]) {
      a, b := TrimSplits(s[..|s| - 1]);
      b := b + [s[|s| - 1]];
    } else {
      a, b := "", "";
    }
  }

  lemma TrimShortens(s: string)
    ensures |Trim(s)| <= |s|
    ensures |Trim(s)| == |s| ==> Trim(s) == s
  {
    var a, b := TrimSplits(s);
  }

  lemma {:induction false} TrimAddsNothing(s: string, c: char)
    requires c in Trim(s)
    ensures c in s
  {
    if s != "" && IsTrimChar(s[0]) {
      TrimAddsNothing(s[1..], c);
    } else if s != "" && IsTrimChar(s[|s| - 1]) {
      TrimAddsNothing(s[..|s| - 1], c);
    }
  }

  // ---- prefixes -------------------------------------------------------------

  predicate StartsWith(s: string, p: string) {
    |p| <= |s| && s[..|p|] == p
  }

  lemma PrefixEnds(u: string, d: string)
    requires d != "" && StartsWith(u, d)
    ensures d[0] == u[0] && d[|d| - 1] == u[|d| - 1] && (|d| == 1 ==> d == [u[0]])
  {
  }

  lemma Assoc<T>(a: seq<T>, b: seq<T>, c: seq<T>)
    ensures (a + b) + c == a + (b + c)
  {
  }

  // ---- lines ----------------------------------------------------------------

  predicate EndsLine(s: string) {
    s != "" && s[|s| - 1] == '\n'
  }

  /** Length of the first line of `s`, its newline not counted. */
  function LineLen(s: string): (n: nat)
    ensures n <= |s| && forall i | 0 <= i < n :: s[i] != '\n'
    ensures n < |s| ==> s[n] == '\n'
  {
    if s == "" || s[0] == '\n' then 0
    else
      var m := LineLen(s[1..]);
      assert forall i | 1 <= i < m + 1 :: s[i] == s[1..][i - 1];
      m + 1
  }

  /** Where the second line starts: after the newline, or at the end. */
  function LineEnd(s: string): (n: nat)
    ensures LineLen(s) <= n <= |s|
    ensures s != "" ==> n > 0
  {
    if LineLen(s) < |s| then LineLen(s) + 1 else |s|
  }

  lemma LineLenUnique(s: string, n: nat)
    requires n <= |s| && (forall i | 0 <= i < n :: s[i] != '\n') && (n < |s| ==> s[n] == '\n')
    ensures LineLen(s) == n
  {
  }

  lemma LineLenLocal(s: string, r: string)
    requires '\n' in s
    ensures LineLen(s + r) == LineLen(s) < |s|
    ensures (s + r)[..LineLen(s)] == s[..LineLen(s)]
  {
    var n := LineLen(s);
    assert (s + r)[..n] == s[..n];
    LineLenUnique(s + r, n);
  }

  /** What repeated std::getline calls deliver for a file holding `f`. */
  function GetLines(f: string): seq<string> {
    if f == "" then [] else [f[..LineLen(f)]] + GetLines(f[LineEnd(f)..])
  }

  predicate NoNewline(lines: seq<string>) {
    forall i | 0 <= i < |lines| :: '\n' !in lines[i]
  }

  lemma {:induction false} GetLinesHaveNoNewline(f: string)
    ensures NoNewline(GetLines(f))
  {
    if f != "" {
      GetLinesHaveNoNewline(f[LineEnd(f)..]);
    }
  }

  /** The lines put together again, each one ended by a newline. */
  function Unlines(lines: seq<string>): string {
    if lines == [] then "" else lines[0] + "\n" + Unlines(lines[1..])
  }

  /** The file with a last newline supplied when it is missing. */
  function Terminated(f: string): string {
    if f == "" || EndsLine(f) then f else f + "\n"
  }

  lemma TerminatedAppend(a: string, b: string)
    requires a == "" || EndsLine(a)
    ensures Terminated(a + b) == a + Terminated(b)
  {
    if b == "" {
      assert a + b == a;
    } else {
      assert (a + b)[|a + b| - 1] == b[|b| - 1];
      Assoc(a, b, "\n");
    }
  }

  lemma FirstLine(f: string)
    requires f != ""
    ensures LineLen(f) < |f| ==> f == f[..LineLen(f)] + "\n" + f[LineEnd(f)..]
    ensures LineLen(f) == |f| ==> f[..LineLen(f)] == f && f[LineEnd(f)..] == "" && !EndsLine(f)
    ensures f[LineEnd(f)..] == "" || f[LineEnd(f)..][|f[LineEnd(f)..]| - 1] == f[|f| - 1]
    ensures LineLen(f) < |f| && f[LineEnd(f)..] == "" ==> EndsLine(f)
  {
    if LineLen(f) == |f| {
      assert f[..|f|] == f;
    }
  }

  lemma TerminatedStep(f: string)
    requires f != ""
    ensures Terminated(f) == f[..LineLen(f)] + "\n" + Terminated(f[LineEnd(f)..])
  {
    FirstLine(f);
    var l, rest := f[..LineLen(f)], f[LineEnd(f)..];
    if LineLen(f) == |f| {
      assert Terminated(rest) == "";
    } else if EndsLine(f) {
      assert Terminated(rest) == rest;
    } else {
      assert Terminated(rest) == rest + "\n";
      Assoc(l + "\n", rest, "\n");
    }
  }

  lemma {:induction false} UnlinesOfGetLines(f: string)
    ensures Unlines(GetLines(f)) == Terminated(f)
  {
    if f != "" {
      var l, rest := f[..LineLen(f)], f[LineEnd(f)..];
      UnlinesOfGetLines(rest);
      UnlinesCons(l, GetLines(rest));
      TerminatedStep(f);
    }
  }

  lemma UnlinesCons(l: string, lines: seq<string>)
    ensures Unlines([l] + lines) == l + "\n" + Unlines(lines)
  {
    assert ([l] + lines)[1..] == lines;
  }

  lemma GetLinesStep(f: string, g: string)
    requires EndsLine(f)
    ensures GetLines(f + g) == [f[..LineLen(f)]] + GetLines(f[LineEnd(f)..] + g)
  {
    assert f[|f| - 1] in f;
    LineLenLocal(f, g);
    assert (f + g)[LineEnd(f + g)..] == f[LineEnd(f)..] + g;
  }

  lemma {:induction false} GetLinesAppend(f: string, g: string)
    requires f == "" || EndsLine(f)
    ensures GetLines(f + g) == GetLines(f) + GetLines(g)
  {
    if f == "" {
      assert f + g == g;
    } else {
      var l, rest := f[..LineLen(f)], f[LineEnd(f)..];
      assert rest == "" || EndsLine(rest) by { FirstLine(f); }
      GetLinesAppend(rest, g);
      GetLinesStep(f, g);
      Assoc([l], GetLines(rest), GetLines(g));
    }
  }

  lemma {:induction false} GetLinesTerminated(f: string)
    ensures GetLines(Terminated(f)) == GetLines(f)
  {
    if f != "" && !EndsLine(f) {
      FirstLine(f);
      if LineLen(f) == |f| {
        LineLenUnique(f + "\n", |f|);
        assert (f + "\n")[..|f|] == f;
        assert (f + "\n")[LineEnd(f + "\n")..] == "";
      } else {
        LineLenLocal(f, "\n");
        var rest := f[LineEnd(f)..];
        assert (f + "\n")[LineEnd(f + "\n")..] == rest + "\n";
        GetLinesTerminated(rest);
      }
    }
  }
}
