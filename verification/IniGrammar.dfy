/** The lines of a configuration file: the scanner, and the grammar it should match. */
module IniGrammar {
  import opened Strings

  predicate IsSpace(c: char) {
    c == ' ' || c == '\t' || c == '\n' || c == '\r' || c == '\U{0B}' || c == '\U{0C}'
  }

  predicate AllSpace(s: string) {
    forall i | 0 <= i < |s| :: IsSpace(s[i])
  }

  // ---- the grammar ---------------------------------------------------------------------------

  /** A character that may follow the first one of a key. */
  predicate IsKeyChar(c: char) {
    c != ' ' && c != '\t' && c != '='
  }

  predicate IsKey(k: string) {
    k != "" && !IsSpace(k[0]) && forall i | 1 <= i < |k| :: IsKeyChar(k[i])
  }

  /** Words with exactly one space character between them. */
  predicate IsValue(v: string) {
    && v != "" && !IsSpace(v[0]) && !IsSpace(v[|v| - 1])
    && forall i | 0 <= i < |v| - 1 :: !(IsSpace(v[i]) && IsSpace(v[i + 1]))
  }

  /** The line is space, a key, space, "=", space, a value, space. */
  datatype Form = Form(a: string, key: string, b: string, c: string, value: string, d: string)

  ghost predicate Reads(line: string, f: Form) {
    && line == f.a + f.key + f.b + "=" + f.c + f.value + f.d
    && AllSpace(f.a) && AllSpace(f.b) && AllSpace(f.c) && AllSpace(f.d)
    && IsKey(f.key) && IsValue(f.value)
  }

  // ---- the scanner, as functions ----------------------------------------------------------------

  function SkipWs(line: string, pos: nat): (r: nat)
    requires pos <= |line|
    ensures pos <= r <= |line|
    ensures forall i | pos <= i < r :: IsSpace(line[i])
    ensures r < |line| ==> !IsSpace(line[r])
    decreases |line| - pos
  {
    if pos < |line| && IsSpace(line[pos]) then SkipWs(line, pos + 1) else pos
  }

  function KeyEnd(line: string, pos: nat): (r: nat)
    requires pos <= |line|
    ensures pos <= r <= |line|
    ensures forall i | pos <= i < r :: IsKeyChar(line[i])
    ensures r < |line| ==> !IsKeyChar(line[r])
    decreases |line| - pos
  {
    if pos < |line| && IsKeyChar(line[pos]) then KeyEnd(line, pos + 1) else pos
  }

  function WordEnd(line: string, pos: nat): (r: nat)
    requires pos <= |line|
    ensures pos <= r <= |line|
    ensures forall i | pos <= i < r :: !IsSpace(line[i])
    ensures r < |line| ==> IsSpace(line[r])
    decreases |line| - pos
  {
    if pos < |line| && !IsSpace(line[pos]) then WordEnd(line, pos + 1) else pos
  }

  /** Where the value that has a word ending at `ve` ends, None if it is malformed. */
  function ValueEnd(line: string, ve: nat): Option<nat>
    requires ve <= |line|
    decreases |line| - ve
  {
    var i := SkipWs(line, ve);
    if i == |line| then Some(ve)
    else if i != ve + 1 then None
    else ValueEnd(line, WordEnd(line, i))
  }

  function KeyValue(line: string): Option<(string, string)> {
    var kb := SkipWs(line, 0);
    if kb == |line| then None
    else
      var ke := KeyEnd(line, kb + 1);
      var eq := SkipWs(line, ke);
      if eq == |line| || line[eq] != '=' then None
      else
        var vb := SkipWs(line, eq + 1);
        if vb == |line| then None
        else
          match ValueEnd(line, WordEnd(line, vb))
          case None => None
          case Some(ve) => if vb <= ve <= |line| then Some((line[kb..ke], line[vb..ve])) else None
  }

  // ---- the scanner finds the forms, and only those ---------------------------------------------------

  /** The same form, by the places where its parts meet. */
  ghost predicate Cuts(line: string, kb: nat, ke: nat, eq: nat, vb: nat, ve: nat) {
    && kb < ke <= eq < vb < ve <= |line|
    && (forall i | 0 <= i < kb :: IsSpace(line[i]))
    && !IsSpace(line[kb]) && (forall i | kb < i < ke :: IsKeyChar(line[i]))
    && (forall i | ke <= i < eq :: IsSpace(line[i]))
    && line[eq] == '='
    && (forall i | eq < i < vb :: IsSpace(line[i]))
    && ValueAt(line, vb, ve)
    && (forall i | ve <= i < |line| :: IsSpace(line[i]))
  }

  /** A value, as far as it has been read, stands at [vb, ve). */
  predicate ValueAt(line: string, vb: nat, ve: nat) {
    && vb < ve <= |line| && !IsSpace(line[vb]) && !IsSpace(line[ve - 1])
    && forall i | vb <= i < ve - 1 :: !(IsSpace(line[i]) && IsSpace(line[i + 1]))
  }

  /** One space and a further word keep it a value. */
  lemma FurtherWord(line: string, vb: nat, w: nat, e: nat)
    requires ValueAt(line, vb, w) && w + 1 < e <= |line|
    requires forall i | w < i < e :: !IsSpace(line[i])
    ensures ValueAt(line, vb, e)
  {
    hide IsSpace;
    forall i | vb <= i < e - 1
      ensures !(IsSpace(line[i]) && IsSpace(line[i + 1]))
    {
      if i >= w {
        assert !IsSpace(line[i + 1]);
      }
    }
  }

  lemma OneWord(line: string, vb: nat, w: nat)
    requires vb < w <= |line| && forall i | vb <= i < w :: !IsSpace(line[i])
    ensures ValueAt(line, vb, w)
  {
    hide IsSpace;
  }

  lemma {:induction false} ValueEndSound(line: string, vb: nat, w: nat)
    requires ValueAt(line, vb, w) && (w < |line| ==> IsSpace(line[w]))
    ensures ValueEnd(line, w).Some? ==>
              && ValueAt(line, vb, ValueEnd(line, w).value)
              && forall i | ValueEnd(line, w).value <= i < |line| :: IsSpace(line[i])
    decreases |line| - w
  {
    hide IsSpace, SkipWs, WordEnd;
    var i := SkipWs(line, w);
    if i < |line| && i == w + 1 {
      var e := WordEnd(line, i);
      hide ValueAt;
      FurtherWord(line, vb, w, e);
      ValueEndSound(line, vb, e);
    }
  }

  lemma {:induction false} ValueEndComplete(line: string, vb: nat, w: nat, ve: nat)
    requires ValueAt(line, vb, ve) && vb < w <= ve && (w < ve ==> IsSpace(line[w]))
    requires forall i | ve <= i < |line| :: IsSpace(line[i])
    ensures ValueEnd(line, w) == Some(ve)
    decreases |line| - w
  {
    hide IsSpace, SkipWs, WordEnd;
    var i := SkipWs(line, w);
    if w < ve {
      assert IsSpace(line[w]) && !IsSpace(line[w + 1]);
      assert i == w + 1;
      var e := WordEnd(line, i);
      assert !IsSpace(line[ve - 1]) && i < ve;
      assert ve < |line| ==> IsSpace(line[ve]);
      ValueEndComplete(line, vb, e, ve);
    }
  }

  /** The scanner's own cuts. */
  lemma KeyValueSound(line: string) returns (kb: nat, ke: nat, eq: nat, vb: nat, ve: nat)
    requires KeyValue(line).Some?
    ensures Cuts(line, kb, ke, eq, vb, ve) && KeyValue(line).value == (line[kb..ke], line[vb..ve])
  {
    hide IsSpace, IsKeyChar, SkipWs, WordEnd, KeyEnd, ValueEnd, ValueAt;
    kb := SkipWs(line, 0);
    ke := KeyEnd(line, kb + 1);
    eq := SkipWs(line, ke);
    vb := SkipWs(line, eq + 1);
    var w := WordEnd(line, vb);
    OneWord(line, vb, w);
    ValueEndSound(line, vb, w);
    ve := ValueEnd(line, w).value;
    assert vb < ve by { ValueIsLong(line, vb, ve); }
  }

  lemma ValueIsLong(line: string, vb: nat, ve: nat)
    requires ValueAt(line, vb, ve)
    ensures vb < ve <= |line| && !IsSpace(line[vb]) && !IsSpace(line[ve - 1])
  {
  }

  lemma EqualsSign()
    ensures !IsSpace('=') && !IsKeyChar('=')
  {
  }

  lemma KeyEndBefore(line: string, kb: nat, ke: nat, eq: nat)
    requires kb < ke <= eq < |line| && line[eq] == '='
    requires forall i | kb < i < ke :: IsKeyChar(line[i])
    ensures ke <= KeyEnd(line, kb + 1) <= eq
  {
    hide KeyEnd;
  }

  lemma FirstWordBefore(line: string, vb: nat, ve: nat)
    requires ValueAt(line, vb, ve) && forall i | ve <= i < |line| :: IsSpace(line[i])
    ensures vb < WordEnd(line, vb) <= ve
    ensures WordEnd(line, vb) < ve ==> IsSpace(line[WordEnd(line, vb)])
  {
    hide WordEnd, IsSpace;
    var e := WordEnd(line, vb);
    assert ve < |line| ==> IsSpace(line[ve]);
    assert !IsSpace(line[vb]);
  }

  /** No parse is lost, and the key found is the longest one possible. */
  lemma KeyValueComplete(line: string, kb: nat, ke: nat, eq: nat, vb: nat, ve: nat)
    requires Cuts(line, kb, ke, eq, vb, ve)
    ensures KeyValue(line).Some?
    ensures KeyValue(line).value.1 == line[vb..ve]
    ensures line[kb..ke] <= KeyValue(line).value.0
  {
    hide IsSpace, IsKeyChar, SkipWs, WordEnd, KeyEnd, ValueEnd, ValueAt;
    EqualsSign();
    ValueIsLong(line, vb, ve);
    KeyEndBefore(line, kb, ke, eq);
    var e := KeyEnd(line, kb + 1);
    assert SkipWs(line, 0) == kb;
    assert SkipWs(line, e) == eq;
    assert SkipWs(line, eq + 1) == vb;
    FirstWordBefore(line, vb, ve);
    ValueEndComplete(line, vb, WordEnd(line, vb), ve);
    assert line[kb..ke] == line[kb..e][..ke - kb];
  }

  lemma CutsOfForm(line: string, f: Form) returns (kb: nat, ke: nat, eq: nat, vb: nat, ve: nat)
    requires Reads(line, f)
    ensures Cuts(line, kb, ke, eq, vb, ve) && line[kb..ke] == f.key && line[vb..ve] == f.value
  {
    kb := |f.a|;
    ke := kb + |f.key|;
    eq := ke + |f.b|;
    vb := eq + 1 + |f.c|;
    ve := vb + |f.value|;
    assert line[..kb] == f.a && line[kb..ke] == f.key && line[ke..eq] == f.b;
    assert line[eq + 1..vb] == f.c && line[vb..ve] == f.value && line[ve..] == f.d;
    PartsOf(line, f, kb, ke, eq, vb, ve);
  }

  lemma PartsOf(line: string, f: Form, kb: nat, ke: nat, eq: nat, vb: nat, ve: nat)
    requires 0 <= kb < ke <= eq < vb < ve <= |line| && line[eq] == '='
    requires line[..kb] == f.a && line[kb..ke] == f.key && line[ke..eq] == f.b
    requires line[eq + 1..vb] == f.c && line[vb..ve] == f.value && line[ve..] == f.d
    ensures Cuts(line, kb, ke, eq, vb, ve)
            <==> AllSpace(f.a) && IsKey(f.key) && AllSpace(f.b) && AllSpace(f.c) && IsValue(f.value) && AllSpace(f.d)
  {
    SpaceSlice(line, 0, kb);
    SpaceSlice(line, ke, eq);
    SpaceSlice(line, eq + 1, vb);
    SpaceSlice(line, ve, |line|);
    KeySlice(line, kb, ke);
    ValueSlice(line, vb, ve);
    assert line[0..kb] == line[..kb] && line[ve..|line|] == line[ve..];
  }

  lemma SpaceSlice(line: string, i: nat, j: nat)
    requires i <= j <= |line|
    ensures AllSpace(line[i..j]) <==> forall k | i <= k < j :: IsSpace(line[k])
  {
    assert forall k | i <= k < j :: line[i..j][k - i] == line[k];
  }

  lemma KeySlice(line: string, i: nat, j: nat)
    requires i < j <= |line|
    ensures IsKey(line[i..j]) <==> !IsSpace(line[i]) && forall k | i < k < j :: IsKeyChar(line[k])
  {
    assert forall k | i <= k < j :: line[i..j][k - i] == line[k];
  }

  lemma ValueSlice(line: string, i: nat, j: nat)
    requires i < j <= |line|
    ensures IsValue(line[i..j]) <==> ValueAt(line, i, j)
  {
    var v := line[i..j];
    assert forall k | i <= k < j :: v[k - i] == line[k];
    if IsValue(v) {
      forall k | i <= k < j - 1
        ensures !(IsSpace(line[k]) && IsSpace(line[k + 1]))
      {
        assert !(IsSpace(v[k - i]) && IsSpace(v[k - i + 1]));
      }
    }
  }

  lemma FormOfCuts(line: string, kb: nat, ke: nat, eq: nat, vb: nat, ve: nat) returns (f: Form)
    requires Cuts(line, kb, ke, eq, vb, ve)
    ensures Reads(line, f) && f.key == line[kb..ke] && f.value == line[vb..ve]
  {
    f := Form(line[..kb], line[kb..ke], line[ke..eq], line[eq + 1..vb], line[vb..ve], line[ve..]);
    PartsOf(line, f, kb, ke, eq, vb, ve);
    assert line == f.a + f.key + f.b + "=" + f.c + f.value + f.d;
  }

  /**
   The scanner accepts a line exactly if the line has the form of the grammar. Its
   value is the value of every parse, its key the longest key of any parse.
   */
  lemma GrammarExact(line: string)
    ensures KeyValue(line).Some? <==> exists f :: Reads(line, f)
    ensures KeyValue(line).Some? ==> exists f :: Reads(line, f) && (f.key, f.value) == KeyValue(line).value
    ensures forall f | Reads(line, f) ::
              KeyValue(line).Some? && f.value == KeyValue(line).value.1 && f.key <= KeyValue(line).value.0
  {
    if KeyValue(line).Some? {
      var kb, ke, eq, vb, ve := KeyValueSound(line);
      var f := FormOfCuts(line, kb, ke, eq, vb, ve);
      assert Reads(line, f) && (f.key, f.value) == KeyValue(line).value;
    }
    forall f | Reads(line, f)
      ensures KeyValue(line).Some? && f.value == KeyValue(line).value.1 && f.key <= KeyValue(line).value.0
    {
      var kb, ke, eq, vb, ve := CutsOfForm(line, f);
      KeyValueComplete(line, kb, ke, eq, vb, ve);
    }
  }

  // ---- the other kinds of line ---------------------------------------------------------------------------

  predicate IsBlankLine(line: string) {
    SkipWs(line, 0) == |line|
  }

  predicate IsComment(line: string) {
    var i := SkipWs(line, 0);
    i < |line| && (line[i] == ';' || line[i] == '#' || (i + 1 < |line| && line[i] == '-' && line[i + 1] == '-'))
  }

  /** First "]" at or after `pos`, |line| if there is none. */
  function FindClose(line: string, pos: nat): (r: nat)
    requires pos <= |line|
    ensures pos <= r <= |line|
    ensures forall i | pos <= i < r :: line[i] != ']'
    ensures r < |line| ==> line[r] == ']'
    decreases |line| - pos
  {
    if pos < |line| && line[pos] != ']' then FindClose(line, pos + 1) else pos
  }

  function SectionName(line: string): Option<string> {
    var i := SkipWs(line, 0);
    if i == |line| || line[i] != '[' then None
    else
      var close := FindClose(line, i + 1);
      if close == |line| || close == i + 1 || close + 1 != |line| then None
      else Some(line[i + 1..close])
  }

  predicate IsSectionName(name: string) {
    name != "" && forall i | 0 <= i < |name| :: name[i] != ']'
  }

  lemma SectionSound(line: string)
    requires SectionName(line).Some?
    ensures IsSectionName(SectionName(line).value)
    ensures exists a :: AllSpace(a) && line == a + "[" + SectionName(line).value + "]"
  {
    hide SkipWs, FindClose, IsSpace;
    var i := SkipWs(line, 0);
    var name := SectionName(line).value;
    var a := line[..i];
    assert line == a + "[" + name + "]";
    assert AllSpace(a);
  }

  lemma SectionComplete(line: string, a: string, name: string)
    requires IsSectionName(name) && AllSpace(a) && line == a + "[" + name + "]"
    ensures SectionName(line) == Some(name)
  {
    hide SkipWs, FindClose;
    var i := |a|;
    var c := i + 1 + |name|;
    assert line[i] == '[' && line[c] == ']' && line[i + 1..c] == name;
    assert forall j | 0 <= j < i :: line[j] == a[j];
    assert SkipWs(line, 0) == i;
    assert forall j | i < j < c :: line[j] == name[j - i - 1];
    assert FindClose(line, i + 1) == c;
  }

  /** A section line is space, then the bracketed name, and nothing behind it. */
  lemma SectionExact(line: string, name: string)
    ensures SectionName(line) == Some(name)
            <==> IsSectionName(name) && exists a :: AllSpace(a) && line == a + "[" + name + "]"
  {
    hide SectionName, IsSectionName, AllSpace;
    if SectionName(line) == Some(name) {
      SectionSound(line);
    }
    if IsSectionName(name) {
      forall a | AllSpace(a) && line == a + "[" + name + "]"
        ensures SectionName(line) == Some(name)
      {
        SectionComplete(line, a, name);
      }
    }
  }

  // ---- one line ------------------------------------------------------------------------------------------------

  datatype Line = Skipped | Section(name: string) | Pair(key: string, value: string) | Malformed

  function Classify(line: string): Line {
    if IsBlankLine(line) || IsComment(line) then Skipped
    else
      match SectionName(line)
      case Some(name) => Section(name)
      case None =>
        match KeyValue(line)
        case Some(kv) => Pair(kv.0, kv.1)
        case None => Malformed
  }

  lemma PairIsGood(line: string)
    requires Classify(line).Pair?
    ensures IsKey(Classify(line).key) && IsValue(Classify(line).value)
  {
    GrammarExact(line);
  }

  // ---- printing lines -------------------------------------------------------------------------------------------

  function PrintPair(key: string, value: string): string {
    key + " = " + value
  }

  function PrintSection(name: string): string {
    "[" + name + "]"
  }

  lemma PrintedPairForm(key: string, value: string) returns (f: Form)
    requires IsKey(key) && IsValue(value)
    ensures Reads(PrintPair(key, value), f) && f.key == key && f.value == value
  {
    f := Form("", key, " ", " ", value, "");
    assert PrintPair(key, value) == f.a + f.key + f.b + "=" + f.c + f.value + f.d;
  }

  lemma FoundKey(line: string)
    requires KeyValue(line).Some?
    ensures var kb := SkipWs(line, 0);
            kb < |line| && KeyValue(line).value.0 == line[kb..KeyEnd(line, kb + 1)]
  {
    hide SkipWs, KeyEnd, WordEnd, ValueEnd, IsSpace, IsKeyChar;
  }

  /** The key stops at the space that is printed behind it. */
  lemma PrintedPairReads(key: string, value: string)
    requires IsKey(key) && IsValue(value)
    ensures KeyValue(PrintPair(key, value)) == Some((key, value))
  {
    var line := PrintPair(key, value);
    var f := PrintedPairForm(key, value);
    hide KeyValue, SkipWs, KeyEnd, Reads, IsValue;
    GrammarExact(line);
    assert line[0] == key[0] && line[..|key|] == key && line[|key|] == ' ';
    assert SkipWs(line, 0) == 0;
    assert forall i | 1 <= i < |key| :: line[i] == key[i];
    assert KeyEnd(line, 1) == |key|;
    FoundKey(line);
    hide IsSpace, IsKeyChar, IsKey, PrintPair;
    assert line[0..|key|] == key;
  }

  /**
   A printed pair is read back exactly if key and value are of the grammar and the
   line does not look like a comment or a section.
   */
  lemma PairRoundTrip(key: string, value: string)
    ensures Classify(PrintPair(key, value)) == Pair(key, value)
            <==> && IsKey(key) && IsValue(value)
                 && !IsComment(PrintPair(key, value)) && SectionName(PrintPair(key, value)).None?
  {
    var line := PrintPair(key, value);
    if IsKey(key) && IsValue(value) {
      PrintedPairReads(key, value);
      assert line[0] == key[0];
    }
    if Classify(line) == Pair(key, value) {
      PairIsGood(line);
    }
  }

  lemma SectionRoundTrip(name: string)
    ensures Classify(PrintSection(name)) == Section(name) <==> IsSectionName(name)
  {
    var line := PrintSection(name);
    assert line == "" + "[" + name + "]";
    SectionExact(line, name);
    assert line[0] == '[';
    assert SkipWs(line, 0) == 0;
    assert AllSpace("");
  }
}
